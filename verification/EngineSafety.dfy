/** What the event loops keep under every interleaving: the quota, the counters, and the notification of
    whoever opens a connection. */
module EngineSafety {
  import opened Engine

  // ----- The invariant of one connection and its loop -----

  /** The loop has the connection in hand and its callback has yet to be called. */
  predicate OwesNotice(lp: Loop, c: nat) {
    match lp.place
    case Entering(d) => c == d
    case RollingBack(d) => c == d
    case Registering(d) => c == d
    case Calling(d) => c == d
    case Notifying(d, _, _) => c == d
    case Closing(d, after) => c == d && after.ToNotice?
    case Decrementing(d, after) => c == d && after.ToNotice?
    case CallingOnClose(d, after) => c == d && after.ToNotice?
    case _ => false
  }

  /** The quota is held for the connection. */
  predicate Holds(lp: Loop, c: nat) {
    c in lp.connections || lp.place == Registering(c) || lp.place == RollingBack(c)
    || (lp.place.Decrementing? && lp.place.c == c)
  }

  /** What the callback is told. */
  function Verdict(conn: Conn): Notice {
    if conn.panicked then OnOpenPanicked
    else if conn.registered then Opened
    else if conn.refused then MaxConnRejected
    else EngineShutdown
  }

  /** What the history of a connection in hand must look like. */
  predicate PlaceAgrees(lp: Loop, conn: Conn, c: nat) {
    match lp.place
    case Entering(d) => c == d ==> !conn.refused && !conn.registered && !conn.panicked
    case RollingBack(d) => c == d ==> conn.refused && !conn.registered && !conn.panicked
    case Registering(d) => c == d ==> !conn.refused && !conn.registered && !conn.panicked
    case Calling(d) => c == d ==> conn.registered && !conn.panicked && c in lp.connections
    case Notifying(d, n, _) => c == d ==> n == Verdict(conn)
    case Closing(d, after) => c == d && after.ToNotice? ==> conn.registered && conn.panicked == after.panicked
    case Decrementing(d, after) =>
      c == d ==> c !in lp.connections && (after.ToNotice? ==> conn.registered && conn.panicked == after.panicked)
    case CallingOnClose(d, after) => c == d && after.ToNotice? ==> conn.registered && conn.panicked == after.panicked
    case _ => true
  }

  /** How often the connection waits in the queue to be opened. */
  function Occurs(queue: seq<Event>, c: nat): nat {
    multiset(queue)[OpenEvent(c)]
  }

  ghost predicate PostOk(lp: Loop, conn: Conn, c: nat) {
    && (conn.stage.Idle? || conn.stage.Sending? ==> !conn.posted)
    && (conn.stage.Waiting? ==> conn.posted)
    && Occurs(lp.queue, c) == (if conn.posted && !conn.taken then 1 else 0)
    && (conn.taken ==> conn.posted)
    && (!conn.taken ==> !OwesNotice(lp, c) && !Holds(lp, c) && conn.ups == 0
                        && !conn.registered && !conn.refused && !conn.panicked)
  }

  predicate QuotaOk(cfg: Config, lp: Loop, conn: Conn, c: nat) {
    && (lp.place.Entering? && lp.place.c == c ==> conn.ups == 0)
    && ((lp.place.Entering? || lp.place.Registering? || lp.place.RollingBack?) && lp.place.c == c ==> c !in lp.connections)
    && (c in lp.connections ==> conn.registered)
    && (cfg.maxConn > 0 ==> conn.ups <= 1 && conn.ups == conn.downs + (if Holds(lp, c) then 1 else 0))
  }

  predicate NoticeOk(lp: Loop, conn: Conn, c: nat) {
    && PlaceAgrees(lp, conn, c)
    && conn.notices == (if conn.dialled && conn.taken && !OwesNotice(lp, c) then [Verdict(conn)] else [])
  }

  ghost predicate ConnOk(cfg: Config, lp: Loop, conn: Conn, c: nat) {
    PostOk(lp, conn, c) && QuotaOk(cfg, lp, conn, c) && NoticeOk(lp, conn, c)
  }

  lemma QueueTail(queue: seq<Event>, c: nat)
    requires queue != []
    ensures Occurs(queue, c) == Occurs(queue[1..], c) + if queue[0] == OpenEvent(c) then 1 else 0
  {
    assert queue == [queue[0]] + queue[1..];
  }

  lemma TakeKeepsConnOk(cfg: Config, lp: Loop, conn: Conn, c: nat)
    requires ConnOk(cfg, lp, conn, c) && lp.place.Select? && lp.queue != []
    ensures var (lp', e) := TakeEvent(lp); ConnOk(cfg, lp', Touch(conn, c, e), c)
  {
    hide Occurs;
    QueueTail(lp.queue, c);
  }

  ghost predicate Keeps(cfg: Config, lp: Loop, conn: Conn, c: nat, total: int, cancelled: bool, choice: Choice)
    requires LoopEnabled(lp, cancelled, choice)
  {
    var (lp', e) := LoopNext(cfg, lp, total, cancelled, choice);
    ConnOk(cfg, lp', Touch(conn, c, e), c)
  }

  lemma OpeningKeepsConnOk(cfg: Config, lp: Loop, conn: Conn, c: nat, total: int, cancelled: bool, choice: Choice)
    requires ConnOk(cfg, lp, conn, c) && LoopEnabled(lp, cancelled, choice)
    requires lp.place.Entering? || lp.place.RollingBack? || lp.place.Registering? || lp.place.Calling?
    ensures Keeps(cfg, lp, conn, c, total, cancelled, choice)
  {
    hide Wrap32, Occurs;
  }

  lemma ClosingKeepsConnOk(cfg: Config, lp: Loop, conn: Conn, c: nat, total: int, cancelled: bool, choice: Choice)
    requires ConnOk(cfg, lp, conn, c) && LoopEnabled(lp, cancelled, choice)
    requires lp.place.Closing? || lp.place.Decrementing?
    ensures Keeps(cfg, lp, conn, c, total, cancelled, choice)
  {
    hide Wrap32, Occurs;
  }

  lemma AfterCloseKeepsConnOk(cfg: Config, lp: Loop, conn: Conn, c: nat, total: int, cancelled: bool, choice: Choice)
    requires ConnOk(cfg, lp, conn, c) && LoopEnabled(lp, cancelled, choice)
    requires lp.place.CallingOnClose?
    ensures Keeps(cfg, lp, conn, c, total, cancelled, choice)
  {
    hide Wrap32, Occurs;
  }

  lemma OtherKeepsConnOk(cfg: Config, lp: Loop, conn: Conn, c: nat, total: int, cancelled: bool, choice: Choice)
    requires ConnOk(cfg, lp, conn, c) && LoopEnabled(lp, cancelled, choice)
    requires (lp.place.Select? && (choice.SeeCancel? || lp.queue == [])) || lp.place.Notifying? || lp.place.Serving?
             || lp.place.Checking? || lp.place.Exiting? || lp.place.ClosingAll?
    ensures Keeps(cfg, lp, conn, c, total, cancelled, choice)
  {
    hide Wrap32, Occurs;
  }

  /** Whatever a loop does, each of its connections stays in order. */
  lemma LoopKeepsConnOk(cfg: Config, lp: Loop, conn: Conn, c: nat, total: int, cancelled: bool, choice: Choice)
    requires ConnOk(cfg, lp, conn, c) && LoopEnabled(lp, cancelled, choice)
    ensures Keeps(cfg, lp, conn, c, total, cancelled, choice)
  {
    hide ConnOk;
    match lp.place
    case Select =>
      if choice.SeeCancel? || lp.queue == [] {
        OtherKeepsConnOk(cfg, lp, conn, c, total, cancelled, choice);
      } else {
        TakeKeepsConnOk(cfg, lp, conn, c);
      }
    case Entering(_) => OpeningKeepsConnOk(cfg, lp, conn, c, total, cancelled, choice);
    case RollingBack(_) => OpeningKeepsConnOk(cfg, lp, conn, c, total, cancelled, choice);
    case Registering(_) => OpeningKeepsConnOk(cfg, lp, conn, c, total, cancelled, choice);
    case Calling(_) => OpeningKeepsConnOk(cfg, lp, conn, c, total, cancelled, choice);
    case Closing(_, _) => ClosingKeepsConnOk(cfg, lp, conn, c, total, cancelled, choice);
    case Decrementing(_, _) => ClosingKeepsConnOk(cfg, lp, conn, c, total, cancelled, choice);
    case CallingOnClose(_, _) => AfterCloseKeepsConnOk(cfg, lp, conn, c, total, cancelled, choice);
    case _ => OtherKeepsConnOk(cfg, lp, conn, c, total, cancelled, choice);
  }

  // ----- The invariant of the engine -----

  /** The counter that balances the load is the size of the map; the queue is bounded; what is being closed
      is out of the map. */
  predicate Counted(cfg: Config, lp: Loop) {
    && lp.connCount == |lp.connections| && |lp.queue| <= cfg.capacity
    && (lp.place.Decrementing? || lp.place.CallingOnClose? ==> lp.place.c !in lp.connections)
  }

  /** A loop drains, and closes what is left, only after the engine's context is cancelled. */
  predicate LeavesInOrder(lp: Loop, cancelled: bool) {
    && (!lp.mode.Running? || lp.place.Checking? || lp.place.ClosingAll? || lp.place.Stopped? ==> cancelled)
    && ((lp.place.Closing? || lp.place.Decrementing? || lp.place.CallingOnClose?) && lp.place.after.ToClosingAll? ==> cancelled)
    && (lp.place.Stopped? ==> lp.connections == {})
  }

  predicate LoopOk(cfg: Config, lp: Loop, cancelled: bool) {
    Counted(cfg, lp) && LeavesInOrder(lp, cancelled)
  }

  predicate Concerns(place: Place, c: nat) {
    match place
    case Select => false
    case Checking => false
    case Exiting => false
    case ClosingAll => false
    case Stopped => false
    case _ => place.c == c
  }

  predicate Mentions(lp: Loop, c: nat) {
    OpenEvent(c) in lp.queue || c in lp.connections || Concerns(lp.place, c)
  }

  /** A loop deals with its own connections only. */
  ghost predicate OwnOnly(s: State, l: nat)
    requires l < |s.loops|
  {
    forall c: nat :: Mentions(s.loops[l], c) ==> c < |s.conns| && s.conns[c].owner == l
  }

  function Admitted(lp: Loop): int {
    |lp.connections| + if lp.place.Registering? || lp.place.Decrementing? then 1 else 0
  }

  function Overshoot(lp: Loop): int {
    if lp.place.RollingBack? then 1 else 0
  }

  function Sum(loops: seq<Loop>, f: Loop -> int): int {
    if loops == [] then 0 else f(loops[0]) + Sum(loops[1..], f)
  }

  lemma {:induction false} SumUpdate(loops: seq<Loop>, l: nat, lp: Loop, f: Loop -> int)
    requires l < |loops|
    ensures Sum(loops[l := lp], f) == Sum(loops, f) - f(loops[l]) + f(lp)
  {
    if l == 0 {
      assert loops[0 := lp][1..] == loops[1..];
    } else {
      assert loops[l := lp][1..] == loops[1..][l - 1 := lp];
      SumUpdate(loops[1..], l - 1, lp, f);
    }
  }

  lemma {:induction false} SumBounds(loops: seq<Loop>, f: Loop -> int, most: int)
    requires forall l :: 0 <= l < |loops| ==> 0 <= f(loops[l]) <= most
    ensures 0 <= Sum(loops, f) <= most * |loops|
  {
    if loops != [] {
      SumBounds(loops[1..], f, most);
    }
  }

  /** The quota is in use, and far enough from the end of the 32-bit range. */
  predicate QuotaApplies(cfg: Config, loops: nat) {
    cfg.maxConn > 0 && cfg.maxConn + loops <= MAX_INT32
  }

  ghost predicate QuotaSums(cfg: Config, s: State) {
    && s.total == Sum(s.loops, Admitted) + Sum(s.loops, Overshoot)
    && Sum(s.loops, Admitted) <= cfg.maxConn
  }

  ghost predicate ConnsOk(cfg: Config, s: State) {
    forall c :: 0 <= c < |s.conns| ==> s.conns[c].owner < |s.loops| && ConnOk(cfg, s.loops[s.conns[c].owner], s.conns[c], c)
  }

  ghost predicate LoopsOk(cfg: Config, s: State) {
    forall l :: 0 <= l < |s.loops| ==> LoopOk(cfg, s.loops[l], s.cancelled) && OwnOnly(s, l)
  }

  ghost predicate Invariant(cfg: Config, s: State) {
    && ConnsOk(cfg, s)
    && LoopsOk(cfg, s)
    && (QuotaApplies(cfg, |s.loops|) ==> QuotaSums(cfg, s))
  }

  lemma {:induction false} SumOfFresh(loops: seq<Loop>, f: Loop -> int)
    requires forall l :: 0 <= l < |loops| ==> f(loops[l]) == 0
    ensures Sum(loops, f) == 0
  {
    if loops != [] {
      SumOfFresh(loops[1..], f);
    }
  }

  lemma InitInvariant(cfg: Config, s: State)
    requires Init(s)
    ensures Invariant(cfg, s)
  {
    SumOfFresh(s.loops, Admitted);
    SumOfFresh(s.loops, Overshoot);
    forall c | 0 <= c < |s.conns|
      ensures s.conns[c].owner < |s.loops| && ConnOk(cfg, s.loops[s.conns[c].owner], s.conns[c], c)
    {
      assert FreshConn(s, c);
    }
  }

  // ----- Steps of a loop -----

  /** The quota counts what is admitted and what is over; only an admission under the limit adds to what is
      admitted. */
  lemma LoopCounts(cfg: Config, lp: Loop, total: int, cancelled: bool, choice: Choice)
    requires LoopEnabled(lp, cancelled, choice) && cfg.maxConn > 0
    requires lp.place.Registering? ==> lp.place.c !in lp.connections
    ensures var (lp', e) := LoopNext(cfg, lp, total, cancelled, choice);
      && Admitted(lp') + Overshoot(lp') == Admitted(lp) + Overshoot(lp) + (if e.Up? then 1 else if e.Down? then -1 else 0)
      && Admitted(lp') <= Admitted(lp) + (if e.Up? && Wrap32(total + 1) <= cfg.maxConn then 1 else 0)
  {
    hide Wrap32;
  }

  lemma LoopKeepsCounted(cfg: Config, lp: Loop, total: int, cancelled: bool, choice: Choice)
    requires Counted(cfg, lp) && LoopEnabled(lp, cancelled, choice)
    requires lp.place.Registering? ==> lp.place.c !in lp.connections
    ensures Counted(cfg, LoopNext(cfg, lp, total, cancelled, choice).0)
  {
    hide Wrap32;
  }

  lemma LoopLeavesInOrder(cfg: Config, lp: Loop, total: int, cancelled: bool, choice: Choice)
    requires LeavesInOrder(lp, cancelled) && LoopEnabled(lp, cancelled, choice)
    ensures LeavesInOrder(LoopNext(cfg, lp, total, cancelled, choice).0, cancelled || lp.place.Exiting?)
  {
    hide Wrap32;
  }

  lemma LoopMentions(cfg: Config, lp: Loop, total: int, cancelled: bool, choice: Choice, c: nat)
    requires LoopEnabled(lp, cancelled, choice)
    ensures var (lp', e) := LoopNext(cfg, lp, total, cancelled, choice);
      && (Mentions(lp', c) ==> Mentions(lp, c))
      && (!e.Nothing? ==> Mentions(lp, e.c))
  {
    hide Wrap32;
  }

  /** The conditions a step of a loop starts from. */
  ghost predicate RunsFrom(cfg: Config, s: State, l: nat, choice: Choice) {
    Invariant(cfg, s) && l < |s.loops| && LoopEnabled(s.loops[l], s.cancelled, choice)
  }

  lemma RegistersOnce(cfg: Config, s: State, l: nat)
    requires Invariant(cfg, s) && l < |s.loops| && s.loops[l].place.Registering?
    ensures s.loops[l].place.c !in s.loops[l].connections
  {
    var c := s.loops[l].place.c;
    assert Mentions(s.loops[l], c);
    assert ConnOk(cfg, s.loops[s.conns[c].owner], s.conns[c], c);
  }

  lemma EffectIsOwn(cfg: Config, s: State, l: nat, choice: Choice)
    requires RunsFrom(cfg, s, l, choice)
    ensures var (_, e) := LoopNext(cfg, s.loops[l], s.total, s.cancelled, choice);
      !e.Nothing? ==> e.c < |s.conns| && s.conns[e.c].owner == l
  {
    var (_, e) := LoopNext(cfg, s.loops[l], s.total, s.cancelled, choice);
    if !e.Nothing? {
      LoopMentions(cfg, s.loops[l], s.total, s.cancelled, choice, e.c);
      assert OwnOnly(s, l);
    }
  }

  lemma RunKeepsConnsOk(cfg: Config, s: State, l: nat, choice: Choice)
    requires RunsFrom(cfg, s, l, choice)
    ensures ConnsOk(cfg, RunLoop(cfg, s, l, choice))
  {
    hide LoopNext, ConnOk, Touch, LoopEnabled;
    EffectIsOwn(cfg, s, l, choice);
    var s' := RunLoop(cfg, s, l, choice);
    var (lp', e) := LoopNext(cfg, s.loops[l], s.total, s.cancelled, choice);
    forall c | 0 <= c < |s'.conns|
      ensures s'.conns[c].owner < |s'.loops| && ConnOk(cfg, s'.loops[s'.conns[c].owner], s'.conns[c], c)
    {
      TouchKeepsOwner(s.conns[c], c, e);
      if s.conns[c].owner == l {
        LoopKeepsConnOk(cfg, s.loops[l], s.conns[c], c, s.total, s.cancelled, choice);
      }
    }
  }

  lemma TouchKeepsOwner(conn: Conn, c: nat, e: Effect)
    ensures Touch(conn, c, e).owner == conn.owner && Touch(conn, c, e).dialled == conn.dialled
    ensures e.Nothing? || e.c != c ==> Touch(conn, c, e) == conn
  {}

  lemma TouchAllKeepsOwners(conns: seq<Conn>, e: Effect)
    ensures |TouchAll(conns, e)| == |conns|
    ensures forall c :: 0 <= c < |conns| ==> TouchAll(conns, e)[c].owner == conns[c].owner
  {}

  lemma RunKeepsLoopsOk(cfg: Config, s: State, l: nat, choice: Choice)
    requires RunsFrom(cfg, s, l, choice)
    ensures LoopsOk(cfg, RunLoop(cfg, s, l, choice))
  {
    var s' := RunLoop(cfg, s, l, choice);
    var (lp', e) := LoopNext(cfg, s.loops[l], s.total, s.cancelled, choice);
    hide LoopNext, TouchAll, LoopEnabled, Mentions, ConnsOk, Counted, LeavesInOrder;
    if s.loops[l].place.Registering? {
      RegistersOnce(cfg, s, l);
    }
    LoopKeepsCounted(cfg, s.loops[l], s.total, s.cancelled, choice);
    LoopLeavesInOrder(cfg, s.loops[l], s.total, s.cancelled, choice);
    TouchAllKeepsOwners(s.conns, e);
    forall k | 0 <= k < |s'.loops|
      ensures LoopOk(cfg, s'.loops[k], s'.cancelled) && OwnOnly(s', k)
    {
      forall c: nat | Mentions(s'.loops[k], c) ensures c < |s'.conns| && s'.conns[c].owner == k {
        if k == l {
          LoopMentions(cfg, s.loops[l], s.total, s.cancelled, choice, c);
        }
        assert OwnOnly(s, k);
      }
    }
  }

  lemma RunKeepsQuotaSums(cfg: Config, s: State, l: nat, choice: Choice)
    requires RunsFrom(cfg, s, l, choice) && QuotaApplies(cfg, |s.loops|)
    ensures QuotaSums(cfg, RunLoop(cfg, s, l, choice))
  {
    var lp := s.loops[l];
    var (lp', e) := LoopNext(cfg, lp, s.total, s.cancelled, choice);
    if lp.place.Registering? {
      RegistersOnce(cfg, s, l);
    }
    LoopCounts(cfg, lp, s.total, s.cancelled, choice);
    RoomForOneMore(s.loops, l, lp');
    UpMeansEntering(cfg, lp, s.total, s.cancelled, choice);
    hide LoopNext, LoopEnabled, ConnsOk, LoopsOk, Sum, Admitted, Overshoot, Wrap32;
    SumUpdate(s.loops, l, lp', Admitted);
    SumUpdate(s.loops, l, lp', Overshoot);
    AdmittedIsNatural(s.loops[l := lp']);
    QuotaArithmetic(cfg.maxConn, |s.loops|, s.total, Sum(s.loops, Admitted), Sum(s.loops, Overshoot),
                    Sum(s.loops[l := lp'], Admitted), Sum(s.loops[l := lp'], Overshoot), e);
  }

  lemma QuotaArithmetic(max: int, loops: nat, total: int, a: int, o: int, a': int, o': int, e: Effect)
    requires total == a + o && a <= max && max + loops <= MAX_INT32
    requires 0 <= o <= loops && (e.Up? ==> o < loops) && 0 <= a' && 0 <= o'
    requires a' + o' == a + o + (if e.Up? then 1 else if e.Down? then -1 else 0)
    requires a' <= a + (if e.Up? && Wrap32(total + 1) <= max then 1 else 0)
    ensures TotalAfter(total, e) == a' + o' && a' <= max
  {}

  /** A loop that is not over the quota leaves room for itself in the overshoot. */
  lemma RoomForOneMore(loops: seq<Loop>, l: nat, lp': Loop)
    requires l < |loops|
    ensures 0 <= Sum(loops, Overshoot) <= |loops| && 0 <= Sum(loops[l := lp'], Overshoot)
    ensures loops[l].place.Entering? ==> Sum(loops, Overshoot) < |loops|
  {
    hide Sum;
    SumBounds(loops, Overshoot, 1);
    SumBounds(loops[l := lp'], Overshoot, 1);
    var over := loops[l].(place := RollingBack(0));
    SumUpdate(loops, l, over, Overshoot);
    SumBounds(loops[l := over], Overshoot, 1);
  }

  /** The quota counter moves only as a loop enters or leaves. */
  lemma UpMeansEntering(cfg: Config, lp: Loop, total: int, cancelled: bool, choice: Choice)
    requires LoopEnabled(lp, cancelled, choice)
    ensures LoopNext(cfg, lp, total, cancelled, choice).1.Up? ==> lp.place.Entering?
  {
    hide Wrap32;
  }

  lemma {:induction false} AdmittedIsNatural(loops: seq<Loop>)
    ensures Sum(loops, Admitted) >= 0
  {
    if loops != [] {
      AdmittedIsNatural(loops[1..]);
    }
  }

  // ----- The other steps -----

  lemma StageKeepsConnOk(cfg: Config, lp: Loop, conn: Conn, c: nat, stage: Stage)
    requires ConnOk(cfg, lp, conn, c)
    requires stage.Waiting? ==> conn.posted
    requires stage.Idle? || stage.Sending? ==> !conn.posted
    ensures ConnOk(cfg, lp, conn.(stage := stage), c)
  {
    hide Occurs;
  }

  lemma StageKeepsInvariant(cfg: Config, s: State, c: nat, stage: Stage)
    requires Invariant(cfg, s) && c < |s.conns|
    requires stage.Waiting? ==> s.conns[c].posted
    requires stage.Idle? || stage.Sending? ==> !s.conns[c].posted
    ensures Invariant(cfg, SetStage(s, c, stage))
  {
    hide LoopsOk, ConnOk, Sum;
    var s' := SetStage(s, c, stage);
    LoopsOkForOwners(cfg, s, s');
    forall d | 0 <= d < |s'.conns|
      ensures s'.conns[d].owner < |s'.loops| && ConnOk(cfg, s'.loops[s'.conns[d].owner], s'.conns[d], d)
    {
      if d == c {
        StageKeepsConnOk(cfg, s.loops[s.conns[c].owner], s.conns[c], c, stage);
      }
    }
  }

  lemma OccursAfterAppend(queue: seq<Event>, e: Event, c: nat)
    ensures Occurs(queue + [e], c) == Occurs(queue, c) + if e == OpenEvent(c) then 1 else 0
  {}

  lemma AppendKeepsConnOk(cfg: Config, lp: Loop, conn: Conn, c: nat, e: Event)
    requires ConnOk(cfg, lp, conn, c) && e != OpenEvent(c)
    ensures ConnOk(cfg, lp.(queue := lp.queue + [e]), conn, c)
  {
    hide Occurs;
    OccursAfterAppend(lp.queue, e, c);
  }

  lemma PostKeepsConnOk(cfg: Config, lp: Loop, conn: Conn, c: nat)
    requires ConnOk(cfg, lp, conn, c) && !conn.posted
    ensures ConnOk(cfg, lp.(queue := lp.queue + [OpenEvent(c)]), conn.(stage := Waiting, posted := true), c)
  {
    hide Occurs;
    OccursAfterAppend(lp.queue, OpenEvent(c), c);
  }

  lemma EnqueueKeepsLoopsOk(cfg: Config, s: State, l: nat, e: Event)
    requires LoopsOk(cfg, s) && HasRoom(cfg, s, l)
    requires e.OpenEvent? ==> e.c < |s.conns| && s.conns[e.c].owner == l
    ensures LoopsOk(cfg, Enqueue(s, l, e))
  {
    var s' := Enqueue(s, l, e);
    forall k | 0 <= k < |s'.loops| ensures LoopOk(cfg, s'.loops[k], s'.cancelled) && OwnOnly(s', k) {
      forall c: nat | Mentions(s'.loops[k], c) ensures c < |s'.conns| && s'.conns[c].owner == k {
        assert OwnOnly(s, k);
        assert Mentions(s.loops[k], c) || e == OpenEvent(c);
      }
    }
  }

  lemma EnqueueKeepsQuotaSums(cfg: Config, s: State, l: nat, e: Event)
    requires QuotaSums(cfg, s) && l < |s.loops|
    ensures QuotaSums(cfg, Enqueue(s, l, e))
  {
    hide Sum;
    var lp' := s.loops[l].(queue := s.loops[l].queue + [e]);
    SumUpdate(s.loops, l, lp', Admitted);
    SumUpdate(s.loops, l, lp', Overshoot);
  }

  lemma PostEventKeepsInvariant(cfg: Config, s: State, l: nat, e: Event)
    requires Invariant(cfg, s) && HasRoom(cfg, s, l) && !e.OpenEvent?
    ensures Invariant(cfg, Enqueue(s, l, e))
  {
    hide QuotaSums, LoopsOk, ConnOk;
    EnqueueKeepsLoopsOk(cfg, s, l, e);
    if QuotaApplies(cfg, |s.loops|) {
      EnqueueKeepsQuotaSums(cfg, s, l, e);
    }
    var s' := Enqueue(s, l, e);
    forall c | 0 <= c < |s'.conns|
      ensures s'.conns[c].owner < |s'.loops| && ConnOk(cfg, s'.loops[s'.conns[c].owner], s'.conns[c], c)
    {
      AppendKeepsConnOk(cfg, s.loops[s.conns[c].owner], s.conns[c], c, e);
    }
  }

  lemma LoopsOkForOwners(cfg: Config, s: State, s': State)
    requires LoopsOk(cfg, s) && s'.loops == s.loops && s'.cancelled == s.cancelled && |s'.conns| == |s.conns|
    requires forall c :: 0 <= c < |s.conns| ==> s'.conns[c].owner == s.conns[c].owner
    ensures LoopsOk(cfg, s')
  {
    hide LoopOk, Mentions;
    forall k | 0 <= k < |s'.loops| ensures LoopOk(cfg, s'.loops[k], s'.cancelled) && OwnOnly(s', k) {
      assert OwnOnly(s, k);
    }
  }

  lemma PostConnKeepsInvariant(cfg: Config, s: State, c: nat)
    requires Invariant(cfg, s) && c < |s.conns| && HasRoom(cfg, s, s.conns[c].owner) && !s.conns[c].posted
    ensures Invariant(cfg, PostConn(s, c))
  {
    hide QuotaSums, LoopsOk, ConnOk;
    var l, e := s.conns[c].owner, OpenEvent(c);
    EnqueueKeepsLoopsOk(cfg, s, l, e);
    if QuotaApplies(cfg, |s.loops|) {
      EnqueueKeepsQuotaSums(cfg, s, l, e);
      QuotaSumsOf(cfg, Enqueue(s, l, e), PostConn(s, c));
    }
    var s' := PostConn(s, c);
    LoopsOkForOwners(cfg, Enqueue(s, l, e), s');
    forall d | 0 <= d < |s'.conns|
      ensures s'.conns[d].owner < |s'.loops| && ConnOk(cfg, s'.loops[s'.conns[d].owner], s'.conns[d], d)
    {
      if d == c {
        PostKeepsConnOk(cfg, s.loops[l], s.conns[c], c);
      } else {
        AppendKeepsConnOk(cfg, s.loops[s.conns[d].owner], s.conns[d], d, e);
      }
    }
  }

  lemma QuotaSumsOf(cfg: Config, s: State, s': State)
    requires QuotaSums(cfg, s) && s'.loops == s.loops && s'.total == s.total
    ensures QuotaSums(cfg, s')
  {}

  lemma CancelKeepsInvariant(cfg: Config, s: State)
    requires Invariant(cfg, s)
    ensures Invariant(cfg, s.(cancelled := true))
  {
    hide Sum, ConnOk, Mentions, Counted;
    var s' := s.(cancelled := true);
    forall k | 0 <= k < |s'.loops| ensures LoopOk(cfg, s'.loops[k], s'.cancelled) && OwnOnly(s', k) {
      assert OwnOnly(s, k);
    }
  }

  lemma StepKeepsInvariant(cfg: Config, s: State, step: Step)
    requires Invariant(cfg, s) && Enabled(cfg, s, step)
    ensures Invariant(cfg, Apply(cfg, s, step))
  {
    ConnStageAgrees(cfg, s);
    hide Invariant;
    match step
    case Run(l, choice) => RunKeepsInvariant(cfg, s, l, choice);
    case Post(l, e) => PostEventKeepsInvariant(cfg, s, l, e);
    case Cancel => CancelKeepsInvariant(cfg, s);
    case DialCheck(c) => StageKeepsInvariant(cfg, s, c, if s.cancelled then Returned(EngineShutdown) else Sending);
    case DialPost(c) => PostConnKeepsInvariant(cfg, s, c);
    case Accept(c) => PostConnKeepsInvariant(cfg, s, c);
    case DialWoken(c) => StageKeepsInvariant(cfg, s, c, Returned(s.conns[c].notices[0]));
    case DialGiveUp(c) => StageKeepsInvariant(cfg, s, c, Returned(EngineShutdown));
    case DialCancelled(c) => StageKeepsInvariant(cfg, s, c, Returned(EngineShutdown));
  }

  lemma ConnStageAgrees(cfg: Config, s: State)
    requires Invariant(cfg, s)
    ensures forall c :: 0 <= c < |s.conns| && (s.conns[c].stage.Idle? || s.conns[c].stage.Sending?) ==> !s.conns[c].posted
    ensures forall c :: 0 <= c < |s.conns| ==> s.conns[c].owner < |s.loops|
  {
    forall c | 0 <= c < |s.conns|
      ensures s.conns[c].stage.Idle? || s.conns[c].stage.Sending? ==> !s.conns[c].posted
    {
      assert ConnOk(cfg, s.loops[s.conns[c].owner], s.conns[c], c);
    }
  }

  lemma RunKeepsInvariant(cfg: Config, s: State, l: nat, choice: Choice)
    requires RunsFrom(cfg, s, l, choice)
    ensures Invariant(cfg, RunLoop(cfg, s, l, choice))
  {
    hide RunLoop, QuotaSums, LoopsOk, ConnsOk;
    RunKeepsConnsOk(cfg, s, l, choice);
    RunKeepsLoopsOk(cfg, s, l, choice);
    if QuotaApplies(cfg, |s.loops|) {
      RunKeepsQuotaSums(cfg, s, l, choice);
    }
    RunKeepsLoops(cfg, s, l, choice);
  }

  lemma RunKeepsLoops(cfg: Config, s: State, l: nat, choice: Choice)
    requires l < |s.loops| && LoopEnabled(s.loops[l], s.cancelled, choice)
    ensures |RunLoop(cfg, s, l, choice).loops| == |s.loops|
  {
    hide LoopNext;
  }

  lemma {:induction false} RunInvariant(cfg: Config, run: seq<State>, steps: seq<Step>, i: nat)
    requires IsRun(cfg, run, steps) && i < |run|
    ensures Invariant(cfg, run[i])
  {
    hide Invariant, Apply, Enabled, Init;
    if i == 0 {
      InitInvariant(cfg, run[0]);
    } else {
      RunInvariant(cfg, run, steps, i - 1);
      StepKeepsInvariant(cfg, run[i - 1], steps[i - 1]);
    }
  }
}
