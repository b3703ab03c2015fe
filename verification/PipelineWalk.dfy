/** Walks over a handler chain while handlers are added to it, a step for every pointer store and load
    (`contribute/agonet/simple/pipeline.go`, `contribute/agonet/simple/context.go`). */
module PipelineWalk {

  const HEAD: nat := 0
  const TAIL: nat := 1

  /** The insertion that holds the lock, between its two pointer stores. */
  datatype Pending = Idle | First(ctx: nat, oldNext: nat) | Last(ctx: nat, oldPrev: nat)

  datatype Direction = Forward | Backward

  /** A walk over the chain: the contexts ahead when it began, its start first; where it is; the contexts it
      has come by; and whether it came to the end. */
  datatype Walk = Walk(direction: Direction, present: seq<nat>, at: nat, visited: seq<nat>, ended: bool)

  /** The pointers of the contexts, and the contexts in their order, with one being inserted among them. */
  datatype State = State(
    next: map<nat, nat>,
    prev: map<nat, nat>,
    order: seq<nat>,
    pending: Pending,
    walks: seq<Walk>)

  datatype Step =
    | BeginFirst(ctx: nat)     // head.next.Store(ctx): the new context holds its own pointers already
    | EndFirst                 // oldNext.prev.Store(ctx)
    | BeginLast(ctx: nat)      // tail.prev.Store(ctx)
    | EndLast                  // oldPrev.next.Store(ctx)
    | Start(direction: Direction, from: nat)
    | Move(w: nat)             // next.Load() or prev.Load()

  function Insert(s: seq<nat>, k: nat, c: nat): seq<nat>
    requires k <= |s|
  {
    s[..k] + [c] + s[k..]
  }

  function Reverse(s: seq<nat>): (r: seq<nat>)
    ensures |r| == |s| && forall i :: 0 <= i < |s| ==> r[i] == s[|s| - 1 - i]
  {
    seq(|s|, i requires 0 <= i < |s| => s[|s| - 1 - i])
  }

  /** The contexts that the forward pointers link: one that is being inserted at the end is not among them. */
  function ForwardPath(s: State): seq<nat> {
    var n := |s.order|;
    if s.pending.Last? && n >= 3 then s.order[..n - 2] + s.order[n - 1..] else s.order
  }

  /** The contexts that the backward pointers link, from the tail: one that is being inserted at the front is
      not among them. */
  function BackwardPath(s: State): seq<nat> {
    Reverse(if s.pending.First? && |s.order| >= 3 then s.order[..1] + s.order[2..] else s.order)
  }

  function Path(s: State, d: Direction): seq<nat> {
    if d.Forward? then ForwardPath(s) else BackwardPath(s)
  }

  function Pointers(s: State, d: Direction): map<nat, nat> {
    if d.Forward? then s.next else s.prev
  }

  predicate Enabled(s: State, step: Step) {
    match step
    case BeginFirst(ctx) => s.pending.Idle? && ctx !in s.order && HEAD in s.next && |s.order| >= 2
    case EndFirst => s.pending.First?
    case BeginLast(ctx) => s.pending.Idle? && ctx !in s.order && TAIL in s.prev && |s.order| >= 2
    case EndLast => s.pending.Last?
    case Start(_, from) => from in s.order
    case Move(w) => w < |s.walks| && !s.walks[w].ended
  }

  function MoveWalk(s: State, w: Walk): Walk {
    var pointers := Pointers(s, w.direction);
    if w.at in pointers then w.(at := pointers[w.at], visited := w.visited + [pointers[w.at]])
    else w.(ended := true)
  }

  /** What comes behind `x`. */
  function After(s: seq<nat>, x: nat): seq<nat> {
    if s == [] then [] else if s[0] == x then s[1..] else After(s[1..], x)
  }

  function End(d: Direction): nat {
    if d.Forward? then TAIL else HEAD
  }

  /** A context and what comes behind it. One that the pointers of this direction do not lead to yet points to
      the end itself. */
  function Ahead(s: State, d: Direction, from: nat): seq<nat> {
    [from] + if from in Path(s, d) then After(Path(s, d), from) else [End(d)]
  }

  function Apply(s: State, step: Step): State
    requires Enabled(s, step)
  {
    match step
    case BeginFirst(ctx) =>
      var oldNext := s.next[HEAD];
      s.(next := s.next[ctx := oldNext][HEAD := ctx], prev := s.prev[ctx := HEAD],
         order := Insert(s.order, 1, ctx), pending := First(ctx, oldNext))
    case EndFirst => s.(prev := s.prev[s.pending.oldNext := s.pending.ctx], pending := Idle)
    case BeginLast(ctx) =>
      var oldPrev := s.prev[TAIL];
      s.(prev := s.prev[ctx := oldPrev][TAIL := ctx], next := s.next[ctx := TAIL],
         order := Insert(s.order, |s.order| - 1, ctx), pending := Last(ctx, oldPrev))
    case EndLast => s.(next := s.next[s.pending.oldPrev := s.pending.ctx], pending := Idle)
    case Start(d, from) => s.(walks := s.walks + [Walk(d, Ahead(s, d, from), from, [from], false)])
    case Move(w) => s.(walks := s.walks[w := MoveWalk(s, s.walks[w])])
  }

  ghost predicate Init(s: State) {
    s == State(map[HEAD := TAIL], map[TAIL := HEAD], [HEAD, TAIL], Idle, [])
  }

  ghost predicate IsRun(run: seq<State>, steps: seq<Step>) {
    && |run| == |steps| + 1 && Init(run[0])
    && forall i :: 0 <= i < |steps| ==> Enabled(run[i], steps[i]) && run[i + 1] == Apply(run[i], steps[i])
  }

  // ----- The chains -----

  predicate Distinct(s: seq<nat>) {
    forall i, j :: 0 <= i < j < |s| ==> s[i] != s[j]
  }

  /** Each context of the path points to the next one; the last one points nowhere. */
  predicate Linked(path: seq<nat>, pointers: map<nat, nat>) {
    && path != [] && path[|path| - 1] !in pointers
    && forall i :: 0 <= i < |path| - 1 ==> path[i] in pointers && pointers[path[i]] == path[i + 1]
  }

  predicate PendingOk(s: State) {
    var n := |s.order|;
    match s.pending
    case Idle => true
    case First(ctx, oldNext) => n >= 3 && s.order[1] == ctx && s.order[2] == oldNext && ctx in s.prev && s.prev[ctx] == HEAD
    case Last(ctx, oldPrev) => n >= 3 && s.order[n - 2] == ctx && s.order[n - 3] == oldPrev && ctx in s.next && s.next[ctx] == TAIL
  }

  /** After every single store both paths are complete from end to end. */
  predicate Complete(s: State) {
    && |s.order| >= 2 && s.order[0] == HEAD && s.order[|s.order| - 1] == TAIL && Distinct(s.order)
    && Linked(ForwardPath(s), s.next) && Linked(BackwardPath(s), s.prev)
    && PendingOk(s)
  }

  /** A context put behind the first one is linked by two pointers. */
  lemma InsertLinks(path: seq<nat>, pointers: map<nat, nat>, c: nat)
    requires Linked(path, pointers) && Distinct(path) && c !in path && |path| >= 2
    ensures Linked(Insert(path, 1, c), pointers[c := path[1]][path[0] := c])
  {
    var path', pointers' := Insert(path, 1, c), pointers[c := path[1]][path[0] := c];
    forall i | 0 <= i < |path'| - 1 ensures path'[i] in pointers' && pointers'[path'[i]] == path'[i + 1] {
      if i >= 2 {
        assert path'[i] == path[i - 1] && path'[i + 1] == path[i];
      }
    }
  }

  /** A pointer of a context that is not on the path does not matter, nor does one that does not change. */
  lemma OtherPointer(path: seq<nat>, pointers: map<nat, nat>, c: nat, x: nat)
    requires Linked(path, pointers) && c !in path
    ensures Linked(path, pointers[c := x])
  {}

  /** A context put before the last one is linked by the pointer of the one before it. */
  lemma AppendLinks(path: seq<nat>, pointers: map<nat, nat>, c: nat)
    requires Linked(path, pointers) && Distinct(path) && c !in path && |path| >= 2
    requires c in pointers && pointers[c] == path[|path| - 1]
    ensures Linked(Insert(path, |path| - 1, c), pointers[path[|path| - 2] := c])
  {
    var n := |path|;
    var path', pointers' := Insert(path, n - 1, c), pointers[path[n - 2] := c];
    forall i | 0 <= i < |path'| - 1 ensures path'[i] in pointers' && pointers'[path'[i]] == path'[i + 1] {
      if i < n - 2 {
        assert path'[i] == path[i] && path'[i + 1] == path[i + 1];
      }
    }
  }

  lemma InsertOrder(s: seq<nat>, k: nat, c: nat)
    requires Distinct(s) && c !in s && 1 <= k < |s|
    ensures var r := Insert(s, k, c);
      |r| == |s| + 1 && Distinct(r) && r[0] == s[0] && r[|r| - 1] == s[|s| - 1] && r[k] == c && r[k + 1] == s[k] && r[k - 1] == s[k - 1]
  {
    var r := Insert(s, k, c);
    forall i, j | 0 <= i < j < |r| ensures r[i] != r[j] {
      assert r[i] == if i < k then s[i] else if i == k then c else s[i - 1];
      assert r[j] == if j < k then s[j] else if j == k then c else s[j - 1];
    }
  }

  lemma ReverseDistinct(s: seq<nat>)
    requires Distinct(s)
    ensures Distinct(Reverse(s)) && forall c :: c in Reverse(s) <==> c in s
  {
    forall c ensures c in Reverse(s) <==> c in s {
      if c in s {
        var i :| 0 <= i < |s| && s[i] == c;
        assert Reverse(s)[|s| - 1 - i] == c;
      }
    }
  }

  lemma InsertFirstPaths(s: State, ctx: nat)
    requires Complete(s) && Enabled(s, BeginFirst(ctx))
    ensures ForwardPath(Apply(s, BeginFirst(ctx))) == Insert(ForwardPath(s), 1, ctx)
    ensures BackwardPath(Apply(s, BeginFirst(ctx))) == BackwardPath(s)
  {
    var s' := Apply(s, BeginFirst(ctx));
    assert s'.order[..1] + s'.order[2..] == s.order;
  }

  lemma BeginFirstKeepsComplete(s: State, ctx: nat)
    requires Complete(s) && Enabled(s, BeginFirst(ctx))
    ensures Complete(Apply(s, BeginFirst(ctx)))
  {
    hide Linked, Distinct, Insert, Reverse, BackwardPath, ForwardPath;
    InsertFirstPaths(s, ctx);
    InsertOrder(s.order, 1, ctx);
    IdlePaths(s);
    FirstPointer(s.order, s.next);
    InsertLinks(s.order, s.next, ctx);
    ReverseDistinct(s.order);
    OtherPointer(Reverse(s.order), s.prev, ctx, HEAD);
  }

  lemma IdlePaths(s: State)
    requires s.pending.Idle?
    ensures ForwardPath(s) == s.order && BackwardPath(s) == Reverse(s.order)
  {}

  lemma FirstPointer(path: seq<nat>, pointers: map<nat, nat>)
    requires Linked(path, pointers) && |path| >= 2
    ensures path[0] in pointers && pointers[path[0]] == path[1]
  {}

  lemma EndFirstPaths(s: State)
    requires Complete(s) && s.pending.First?
    ensures var s' := Apply(s, EndFirst);
      && ForwardPath(s') == ForwardPath(s)
      && BackwardPath(s') == Insert(BackwardPath(s), |BackwardPath(s)| - 1, s.pending.ctx)
    ensures var b := BackwardPath(s);
      |b| == |s.order| - 1 && b[|b| - 1] == HEAD && b[|b| - 2] == s.pending.oldNext && s.pending.ctx !in b && Distinct(b)
  {
    hide Linked;
    var without := s.order[..1] + s.order[2..];
    assert forall i :: 0 <= i < |without| ==> without[i] == if i == 0 then s.order[0] else s.order[i + 1];
    ReverseDistinct(without);
    var b, b' := BackwardPath(s), Reverse(s.order);
    assert b' == Insert(b, |b| - 1, s.pending.ctx);
  }

  lemma EndFirstKeepsComplete(s: State)
    requires Complete(s) && Enabled(s, EndFirst)
    ensures Complete(Apply(s, EndFirst))
  {
    hide Linked, Distinct, Insert, Reverse, BackwardPath, ForwardPath;
    EndFirstPaths(s);
    AppendLinks(BackwardPath(s), s.prev, s.pending.ctx);
  }

  lemma InsertLastPaths(s: State, ctx: nat)
    requires Complete(s) && Enabled(s, BeginLast(ctx))
    ensures var s' := Apply(s, BeginLast(ctx));
      && ForwardPath(s') == ForwardPath(s)
      && BackwardPath(s') == Insert(BackwardPath(s), 1, ctx)
  {
    hide Linked, Distinct, PendingOk;
    var s', n := Apply(s, BeginLast(ctx)), |s.order|;
    assert s'.order[..n - 1] + s'.order[n..] == s.order;
    assert Reverse(s'.order) == Insert(Reverse(s.order), 1, ctx);
  }

  lemma BeginLastKeepsComplete(s: State, ctx: nat)
    requires Complete(s) && Enabled(s, BeginLast(ctx))
    ensures Complete(Apply(s, BeginLast(ctx)))
  {
    hide Linked, Distinct, Insert, Reverse, BackwardPath, ForwardPath;
    var b, n := Reverse(s.order), |s.order|;
    ReverseDistinct(s.order);
    ReverseEnds(s.order);
    InsertLastPaths(s, ctx);
    InsertOrder(s.order, n - 1, ctx);
    IdlePaths(s);
    FirstPointer(b, s.prev);
    InsertLinks(b, s.prev, ctx);
    OtherPointer(s.order, s.next, ctx, TAIL);
  }

  lemma ReverseEnds(s: seq<nat>)
    requires |s| >= 2
    ensures |Reverse(s)| == |s| && Reverse(s)[0] == s[|s| - 1] && Reverse(s)[1] == s[|s| - 2]
  {}

  lemma EndLastPaths(s: State)
    requires Complete(s) && s.pending.Last?
    ensures var s' := Apply(s, EndLast);
      && ForwardPath(s') == Insert(ForwardPath(s), |ForwardPath(s)| - 1, s.pending.ctx)
      && BackwardPath(s') == BackwardPath(s)
    ensures var f := ForwardPath(s);
      |f| == |s.order| - 1 && f[|f| - 1] == TAIL && f[|f| - 2] == s.pending.oldPrev && s.pending.ctx !in f && Distinct(f)
  {
    hide Linked, Reverse, Distinct, Insert;
    RemoveOne(s.order, |s.order| - 2);
  }

  lemma RemoveOne(s: seq<nat>, k: nat)
    requires Distinct(s) && k < |s|
    ensures var r := s[..k] + s[k + 1..]; Distinct(r) && s[k] !in r && s == Insert(r, k, s[k])
  {
    var r := s[..k] + s[k + 1..];
    assert forall i :: 0 <= i < |r| ==> r[i] == if i < k then s[i] else s[i + 1];
  }

  lemma EndLastKeepsComplete(s: State)
    requires Complete(s) && Enabled(s, EndLast)
    ensures Complete(Apply(s, EndLast))
  {
    hide Linked, Distinct, Insert, Reverse, BackwardPath, ForwardPath;
    EndLastPaths(s);
    AppendLinks(ForwardPath(s), s.next, s.pending.ctx);
  }

  // ----- Walks -----

  /** The elements of `s` that are in `p`. */
  function Kept(s: seq<nat>, p: seq<nat>): seq<nat> {
    if s == [] then [] else (if s[0] in p then [s[0]] else []) + Kept(s[1..], p)
  }

  lemma {:induction false} KeptConcat(a: seq<nat>, b: seq<nat>, p: seq<nat>)
    ensures Kept(a + b, p) == Kept(a, p) + Kept(b, p)
  {
    if a == [] {
      assert a + b == b && [] + Kept(b, p) == Kept(b, p);
    } else {
      KeptConcat(a[1..], b, p);
      KeptStep(a, p);
      KeptStep(a + b, p);
      hide Kept;
      assert (a + b)[0] == a[0] && (a + b)[1..] == a[1..] + b;
      Associates(if a[0] in p then [a[0]] else [], Kept(a[1..], p), Kept(b, p));
    }
  }

  lemma KeptStep(s: seq<nat>, p: seq<nat>)
    requires s != []
    ensures Kept(s, p) == (if s[0] in p then [s[0]] else []) + Kept(s[1..], p)
  {}

  lemma Associates(a: seq<nat>, b: seq<nat>, c: seq<nat>)
    ensures a + (b + c) == (a + b) + c
  {
  }

  lemma {:induction false} KeptAll(s: seq<nat>, p: seq<nat>)
    requires forall x :: x in s ==> x in p
    ensures Kept(s, p) == s
  {
    if s != [] {
      KeptAll(s[1..], p);
    }
  }

  /** What is inserted on the way does not count as present. */
  lemma {:induction false} KeptInsert(path: seq<nat>, k: nat, c: nat, x: nat, p: seq<nat>)
    requires k <= |path| && c !in p && x in path && x != c
    ensures Kept(After(Insert(path, k, c), x), p) == Kept(After(path, x), p)
  {
    var path' := Insert(path, k, c);
    if k == 0 {
      assert path'[1..] == path;
    } else {
      assert path'[1..] == Insert(path[1..], k - 1, c);
      if path[0] == x {
        KeptConcat(path[1..k], [c] + path[k..], p);
        KeptConcat([c], path[k..], p);
        KeptConcat(path[1..k], path[k..], p);
        assert path[1..k] + path[k..] == path[1..];
        assert path'[1..] == path[1..k] + ([c] + path[k..]);
        assert [c][1..] == [];
      } else {
        KeptInsert(path[1..], k - 1, c, x, p);
      }
    }
  }

  ghost predicate Grows(path: seq<nat>, path': seq<nat>) {
    path' == path || exists k, c :: 0 <= k <= |path| && c !in path && path' == Insert(path, k, c)
  }

  /** Some contexts ahead at the start have been visited, in order, and the others are still ahead. */
  predicate WalkOk(path: seq<nat>, w: Walk) {
    && (forall x :: x in w.present ==> x in path) && Distinct(w.present)
    && (if w.ended then Kept(w.visited, w.present) == w.present
        else w.at in path && Kept(w.visited, w.present) + Kept(After(path, w.at), w.present) == w.present)
  }

  /** The context being inserted, where the pointers of this direction do not lead to it yet. */
  predicate IsAside(s: State, d: Direction, c: nat) {
    (if d.Forward? then s.pending.Last? else s.pending.First?) && s.pending.ctx == c
  }

  /** A walk that began at such a context has only the end before it. */
  predicate AsideOk(s: State, w: Walk) {
    && |w.present| == 2 && IsAside(s, w.direction, w.present[0]) && w.present[1] == End(w.direction)
    && (if w.at == w.present[0] then !w.ended && w.visited == [w.at] else w.at == End(w.direction) && w.visited == w.present)
  }

  lemma GrowthKeepsWalk(path: seq<nat>, path': seq<nat>, w: Walk)
    requires WalkOk(path, w) && Grows(path, path')
    ensures WalkOk(path', w)
  {
    hide After, Kept;
    if path' != path {
      var k, c :| 0 <= k <= |path| && c !in path && path' == Insert(path, k, c);
      forall x | x in path ensures x in path' {
        var i :| 0 <= i < |path| && path[i] == x;
        assert path'[if i < k then i else i + 1] == x;
      }
      if !w.ended {
        KeptInsert(path, k, c, w.at, w.present);
      }
    }
  }

  /** The pointer of a context leads to what comes behind it on the path; only the last one has none. */
  lemma {:induction false} PointerLeadsOn(path: seq<nat>, pointers: map<nat, nat>, x: nat)
    requires Linked(path, pointers) && Distinct(path) && x in path
    ensures if x in pointers then pointers[x] in path && After(path, x) == [pointers[x]] + After(path, pointers[x])
            else After(path, x) == []
  {
    if path[0] == x {
      if |path| > 1 {
        assert pointers[path[0]] == path[1];
        assert After(path, path[1]) == After(path[1..], path[1]) == path[1..][1..];
      }
    } else {
      var rest := path[1..];
      assert Linked(rest, pointers) && Distinct(rest) by {
        assert forall i :: 0 <= i < |rest| ==> rest[i] == path[i + 1];
      }
      PointerLeadsOn(rest, pointers, x);
      if x in pointers {
        assert pointers[x] in rest;
      }
    }
  }

  lemma MoveKeepsWalk(path: seq<nat>, pointers: map<nat, nat>, w: Walk)
    requires WalkOk(path, w) && Linked(path, pointers) && Distinct(path) && !w.ended
    ensures WalkOk(path, if w.at in pointers then w.(at := pointers[w.at], visited := w.visited + [pointers[w.at]])
                         else w.(ended := true))
  {
    hide Linked, Distinct, After;
    PointerLeadsOn(path, pointers, w.at);
    if w.at in pointers {
      var y := pointers[w.at];
      KeptConcat(w.visited, [y], w.present);
      KeptConcat([y], After(path, y), w.present);
      assert Kept(w.visited, w.present) + (Kept([y], w.present) + Kept(After(path, y), w.present))
          == Kept(w.visited, w.present) + Kept([y], w.present) + Kept(After(path, y), w.present);
    } else {
      assert Kept(w.visited, w.present) + [] == Kept(w.visited, w.present);
    }
  }

  lemma {:induction false} AfterIsPart(path: seq<nat>, x: nat)
    requires Distinct(path)
    ensures forall y :: y in After(path, x) ==> y in path && y != x
    ensures Distinct(After(path, x))
  {
    if path != [] {
      assert forall i :: 0 <= i < |path[1..]| ==> path[1..][i] == path[i + 1];
      if path[0] != x {
        AfterIsPart(path[1..], x);
      }
    }
  }

  lemma StartIsOk(path: seq<nat>, d: Direction, from: nat)
    requires from in path && Distinct(path)
    ensures WalkOk(path, Walk(d, [from] + After(path, from), from, [from], false))
  {
    var present := [from] + After(path, from);
    AfterIsPart(path, from);
    KeptAll([from], present);
    KeptAll(After(path, from), present);
  }

  lemma GrowsBy(path: seq<nat>, path': seq<nat>, k: nat, c: nat)
    requires k <= |path| && c !in path && path' == Insert(path, k, c)
    ensures Grows(path, path')
  {}

  lemma FirstGrows(s: State, step: Step)
    requires Complete(s) && Enabled(s, step) && (step.BeginFirst? || step.EndFirst?)
    ensures Complete(Apply(s, step))
    ensures forall d :: Grows(Path(s, d), Path(Apply(s, step), d))
  {
    hide Complete, Grows, ForwardPath, BackwardPath, Insert, Apply;
    IdlePathsReversed(s);
    if step.BeginFirst? {
      BeginFirstKeepsComplete(s, step.ctx);
      InsertFirstPaths(s, step.ctx);
      GrowsBy(ForwardPath(s), Insert(ForwardPath(s), 1, step.ctx), 1, step.ctx);
    } else {
      EndFirstKeepsComplete(s);
      EndFirstPaths(s);
      var b := BackwardPath(s);
      GrowsBy(b, Insert(b, |b| - 1, s.pending.ctx), |b| - 1, s.pending.ctx);
    }
    ItselfGrows(ForwardPath(s));
    ItselfGrows(BackwardPath(s));
    BothDirections(s, Apply(s, step));
  }

  lemma LastGrows(s: State, step: Step)
    requires Complete(s) && Enabled(s, step) && (step.BeginLast? || step.EndLast?)
    ensures Complete(Apply(s, step))
    ensures forall d :: Grows(Path(s, d), Path(Apply(s, step), d))
  {
    hide Complete, Grows, ForwardPath, BackwardPath, Insert, Apply;
    IdlePathsReversed(s);
    if step.BeginLast? {
      BeginLastKeepsComplete(s, step.ctx);
      InsertLastPaths(s, step.ctx);
      GrowsBy(BackwardPath(s), Insert(BackwardPath(s), 1, step.ctx), 1, step.ctx);
    } else {
      EndLastKeepsComplete(s);
      EndLastPaths(s);
      var f := ForwardPath(s);
      GrowsBy(f, Insert(f, |f| - 1, s.pending.ctx), |f| - 1, s.pending.ctx);
    }
    ItselfGrows(ForwardPath(s));
    ItselfGrows(BackwardPath(s));
    BothDirections(s, Apply(s, step));
  }

  lemma ItselfGrows(path: seq<nat>)
    ensures Grows(path, path)
  {}

  lemma BothDirections(s: State, s': State)
    requires Grows(ForwardPath(s), ForwardPath(s')) && Grows(BackwardPath(s), BackwardPath(s'))
    ensures forall d :: Grows(Path(s, d), Path(s', d))
  {
    hide Grows, ForwardPath, BackwardPath;
  }

  lemma IdlePathsReversed(s: State)
    requires Complete(s)
    ensures |s.order| >= if s.pending.Idle? then 2 else 3
    ensures s.pending.Idle? ==> ForwardPath(s) == s.order && |BackwardPath(s)| == |s.order|
    ensures s.pending.Idle? ==> forall c :: c in BackwardPath(s) <==> c in s.order
  {
    ReverseDistinct(s.order);
  }

  lemma StepKeepsComplete(s: State, step: Step)
    requires Complete(s) && Enabled(s, step)
    ensures Complete(Apply(s, step))
    ensures forall d :: Grows(Path(s, d), Path(Apply(s, step), d))
  {
    if step.BeginFirst? || step.EndFirst? {
      FirstGrows(s, step);
    } else if step.BeginLast? || step.EndLast? {
      LastGrows(s, step);
    } else {
      hide After, Insert, Grows, Reverse;
      ItselfGrows(ForwardPath(s));
      ItselfGrows(BackwardPath(s));
      BothDirections(s, Apply(s, step));
    }
  }

  ghost predicate WalkFine(s: State, w: Walk) {
    WalkOk(Path(s, w.direction), w) || AsideOk(s, w)
  }

  ghost predicate WalksOk(s: State) {
    forall i :: 0 <= i < |s.walks| ==> WalkFine(s, s.walks[i])
  }

  lemma PathIsDistinct(s: State, d: Direction)
    requires Complete(s)
    ensures Distinct(Path(s, d)) && Linked(Path(s, d), Pointers(s, d))
  {
    hide Distinct, Linked, ForwardPath, BackwardPath, Reverse;
    ReverseDistinct(s.order);
    WhichPath(s);
    if s.pending.First? {
      EndFirstPaths(s);
    } else if s.pending.Last? {
      EndLastPaths(s);
    }
  }

  lemma WhichPath(s: State)
    ensures !s.pending.Last? ==> ForwardPath(s) == s.order
    ensures !s.pending.First? ==> BackwardPath(s) == Reverse(s.order)
  {
    hide Reverse;
  }

  lemma {:induction false} AfterIs(path: seq<nat>, k: nat)
    requires Distinct(path) && k < |path|
    ensures After(path, path[k]) == path[k + 1..]
    decreases k
  {
    if k > 0 {
      var rest := path[1..];
      assert forall i :: 0 <= i < |rest| ==> rest[i] == path[i + 1];
      AfterIs(rest, k - 1);
      assert rest[k..] == path[k + 1..];
    }
  }

  /** The end of the path, behind the context being inserted. */
  lemma AsideEnd(s: State, d: Direction, c: nat)
    requires Complete(s) && IsAside(s, d, c)
    ensures c != End(d) && End(d) !in Pointers(s, d) && c in Pointers(s, d) && Pointers(s, d)[c] == End(d)
  {
    PathIsDistinct(s, d);
    PathHasAll(s, d);
  }

  lemma StartIsFine(s: State, d: Direction, from: nat)
    requires Complete(s) && from in s.order
    ensures WalkFine(s, Walk(d, Ahead(s, d, from), from, [from], false))
  {
    PathIsDistinct(s, d);
    PathHasAll(s, d);
    hide WalkOk, After, Linked, Distinct, Complete, PendingOk;
    if from in Path(s, d) {
      StartIsOk(Path(s, d), d, from);
    } else {
      WhichPath(s);
      SameElements(s);
      assert IsAside(s, d, from);
    }
  }

  lemma SameElements(s: State)
    ensures forall c :: c in s.order ==> c in Reverse(s.order)
  {
    forall c | c in s.order ensures c in Reverse(s.order) {
      var i :| 0 <= i < |s.order| && s.order[i] == c;
      assert Reverse(s.order)[|s.order| - 1 - i] == c;
    }
  }

  lemma MoveKeepsFine(s: State, w: Walk)
    requires Complete(s) && WalkFine(s, w) && !w.ended
    ensures WalkFine(s, MoveWalk(s, w))
  {
    PathIsDistinct(s, w.direction);
    if AsideOk(s, w) {
      AsideEnd(s, w.direction, w.present[0]);
    } else {
      MoveKeepsWalk(Path(s, w.direction), Pointers(s, w.direction), w);
    }
  }

  function SecondStore(s: State): Step {
    if s.pending.First? then EndFirst else EndLast
  }

  /** The second store puts the context before the end of the path. */
  lemma AsidePath(s: State, d: Direction, c: nat)
    requires Complete(s) && IsAside(s, d, c)
    ensures Enabled(s, SecondStore(s))
    ensures var path := Path(Apply(s, SecondStore(s)), d);
      Distinct(path) && |path| >= 2 && path[|path| - 2] == c && path[|path| - 1] == End(d)
  {
    StepKeepsComplete(s, SecondStore(s));
    PathIsDistinct(Apply(s, SecondStore(s)), d);
    if s.pending.First? {
      EndFirstPaths(s);
    } else {
      EndLastPaths(s);
    }
    hide Complete, Linked, Distinct, ForwardPath, BackwardPath;
  }

  lemma AsideIsOk(path: seq<nat>, w: Walk)
    requires Distinct(path) && |path| >= 2 && |w.present| == 2
    requires path[|path| - 2] == w.present[0] && path[|path| - 1] == w.present[1]
    requires if w.at == w.present[0] then !w.ended && w.visited == [w.at]
             else w.at == w.present[1] && w.visited == w.present
    ensures WalkOk(path, w)
  {
    AsideDistinct(path, w);
    AsideKept(w);
    var n := |path|;
    AfterIs(path, n - 1);
    AfterIs(path, n - 2);
    assert path[n - 1..] == [w.present[1]] && path[n..] == [];
    hide Kept, After, Distinct;
    assert path[n - 2] in path && path[n - 1] in path;
  }

  /** When the second store is done, a walk that began aside is on the path. */
  lemma AsideLands(s: State, w: Walk)
    requires Complete(s) && AsideOk(s, w)
    ensures WalkOk(Path(Apply(s, SecondStore(s)), w.direction), w)
  {
    hide Complete, Distinct, WalkOk, Path, Apply, Enabled;
    AsidePath(s, w.direction, w.present[0]);
    AsideIsOk(Path(Apply(s, SecondStore(s)), w.direction), w);
  }

  lemma AsideDistinct(path: seq<nat>, w: Walk)
    requires Distinct(path) && |path| >= 2 && |w.present| == 2
    requires path[|path| - 2] == w.present[0] && path[|path| - 1] == w.present[1]
    ensures Distinct(w.present) && forall x :: x in w.present ==> x in path
  {}

  lemma AsideKept(w: Walk)
    requires |w.present| == 2
    ensures Kept(w.present, w.present) == w.present
    ensures Kept([w.present[0]], w.present) + Kept([w.present[1]], w.present) == w.present
    ensures Kept(w.present, w.present) + Kept([], w.present) == w.present
  {
    KeptAll(w.present, w.present);
    KeptAll([w.present[0]], w.present);
    KeptAll([w.present[1]], w.present);
    assert [w.present[0]] + [w.present[1]] == w.present;
    assert w.present + [] == w.present;
  }

  /** A step of the insertion keeps a walk. */
  lemma InsertionKeepsFine(s: State, step: Step, w: Walk)
    requires Complete(s) && WalkFine(s, w) && Enabled(s, step) && !step.Move? && !step.Start?
    ensures WalkFine(Apply(s, step), w)
  {
    StepKeepsComplete(s, step);
    if AsideOk(s, w) {
      AsideLands(s, w);
    } else {
      GrowthKeepsWalk(Path(s, w.direction), Path(Apply(s, step), w.direction), w);
    }
  }

  lemma StepKeepsWalks(s: State, step: Step)
    requires Complete(s) && WalksOk(s) && Enabled(s, step)
    ensures WalksOk(Apply(s, step))
  {
    hide Complete, WalkOk, WalkFine, Ahead, MoveWalk, Insert;
    var s' := Apply(s, step);
    forall i | 0 <= i < |s'.walks| ensures WalkFine(s', s'.walks[i]) {
      if step.Move? || step.Start? {
        if i == |s.walks| {
          StartIsFine(s, step.direction, step.from);
        } else if step.Move? && step.w == i {
          MoveKeepsFine(s, s.walks[i]);
        }
        FineDependsOnChain(s, s', s'.walks[i]);
      } else {
        InsertionKeepsFine(s, step, s.walks[i]);
      }
    }
  }

  lemma FineDependsOnChain(s: State, s': State, w: Walk)
    requires s' == s.(walks := s'.walks)
    ensures WalkFine(s, w) <==> WalkFine(s', w)
  {
    hide WalkOk;
  }

  lemma {:induction false} RunInvariant(run: seq<State>, steps: seq<Step>, n: nat)
    requires IsRun(run, steps) && n < |run|
    ensures Complete(run[n]) && WalksOk(run[n])
  {
    hide Apply, Enabled, WalkOk;
    if n == 0 {
      assert Complete(run[0]);
    } else {
      RunInvariant(run, steps, n - 1);
      hide Complete, WalksOk;
      StepKeepsComplete(run[n - 1], steps[n - 1]);
      StepKeepsWalks(run[n - 1], steps[n - 1]);
    }
  }

  // ----- Main results -----

  /** After every single pointer store, the forward pointers link the head to the tail and the backward
      pointers the tail to the head, each over all contexts but, at most, the one being inserted. */
  lemma BothChainsAreComplete(run: seq<State>, steps: seq<Step>, n: nat, d: Direction)
    requires IsRun(run, steps) && n < |run|
    ensures var s, path := run[n], Path(run[n], d);
      && |path| >= 2 && Distinct(path) && Linked(path, Pointers(s, d))
      && path[0] == (if d.Forward? then HEAD else TAIL) && path[|path| - 1] == (if d.Forward? then TAIL else HEAD)
      && (forall c :: c in s.order ==> c in path || (!s.pending.Idle? && c == s.pending.ctx))
  {
    RunInvariant(run, steps, n);
    hide IsRun, WalksOk, Linked;
    var s := run[n];
    PathIsDistinct(s, d);
    PathHasAll(s, d);
  }

  lemma PathHasAll(s: State, d: Direction)
    requires Complete(s)
    ensures var path := Path(s, d);
      && |path| >= 2
      && path[0] == (if d.Forward? then HEAD else TAIL) && path[|path| - 1] == (if d.Forward? then TAIL else HEAD)
      && (forall c :: c in s.order ==> c in path || (!s.pending.Idle? && c == s.pending.ctx))
  {
    hide Linked;
    var n := |s.order|;
    forall c | c in s.order ensures c in Path(s, d) || (!s.pending.Idle? && c == s.pending.ctx) {
      var i :| 0 <= i < n && s.order[i] == c;
      match d
      case Forward =>
        assert s.pending.Last? && i == n - 1 ==> ForwardPath(s)[n - 2] == c;
        assert i < n - 2 || !s.pending.Last? ==> ForwardPath(s)[i] == c;
      case Backward =>
        assert s.pending.First? && i == 0 ==> BackwardPath(s)[n - 2] == c;
        assert i > 1 || !s.pending.First? ==> BackwardPath(s)[n - 1 - i] == c;
    }
  }

  /** A walk that has come to its end has visited the contexts that lay ahead when it began exactly once each
      and in chain order (for a backward walk, from the tail's side), whatever was inserted meanwhile. */
  lemma WalksVisitAllThatWerePresent(run: seq<State>, steps: seq<Step>, n: nat, i: nat)
    requires IsRun(run, steps) && n < |run| && i < |run[n].walks| && run[n].walks[i].ended
    ensures Distinct(run[n].walks[i].present)
    ensures Kept(run[n].walks[i].visited, run[n].walks[i].present) == run[n].walks[i].present
  {
    hide IsRun, Kept;
    RunInvariant(run, steps, n);
    var w := run[n].walks[i];
    assert WalkFine(run[n], w);
    if AsideOk(run[n], w) {
      AsideKept(w);
      AsideEnd(run[n], w.direction, w.present[0]);
    }
  }

  // ----- Every walk ends -----

  /** A walk has come by no more contexts than the path leaves to the ones ahead of it. */
  predicate Bounded(path: seq<nat>, w: Walk) {
    if !w.ended && w.at !in path then w.visited == [w.at]
    else |w.visited| + (if w.ended then 0 else |After(path, w.at)|) <= |path|
  }

  lemma {:induction false} AfterIsShorter(path: seq<nat>, x: nat)
    requires x in path
    ensures |After(path, x)| < |path|
  {
    if path[0] != x {
      AfterIsShorter(path[1..], x);
    }
  }

  lemma {:induction false} AfterGrows(path: seq<nat>, k: nat, c: nat, x: nat)
    requires k <= |path| && x in path && x != c
    ensures |After(Insert(path, k, c), x)| <= |After(path, x)| + 1
  {
    var path' := Insert(path, k, c);
    if k == 0 {
      assert path'[1..] == path;
    } else {
      assert path'[1..] == Insert(path[1..], k - 1, c);
      if path[0] != x {
        AfterGrows(path[1..], k - 1, c, x);
      }
    }
  }

  lemma GrowthKeepsBounded(path: seq<nat>, path': seq<nat>, w: Walk)
    requires Grows(path, path') && Bounded(path, w) && |path| >= 2
    ensures Bounded(path', w)
  {
    hide After;
    if path' != path {
      var k, c :| 0 <= k <= |path| && c !in path && path' == Insert(path, k, c);
      if !w.ended && w.at in path {
        AfterGrows(path, k, c, w.at);
        InsertHas(path, k, c, w.at);
      } else if !w.ended && w.at in path' {
        AfterIsShorter(path', w.at);
      }
    }
  }

  lemma InsertHas(path: seq<nat>, k: nat, c: nat, x: nat)
    requires k <= |path| && x in path
    ensures x in Insert(path, k, c)
  {
    var i :| 0 <= i < |path| && path[i] == x;
    assert Insert(path, k, c)[if i < k then i else i + 1] == x;
  }

  /** A move ends the walk or brings it to one more context. */
  lemma MoveGetsOn(s: State, w: Walk)
    requires Complete(s) && WalkFine(s, w) && !w.ended && Bounded(Path(s, w.direction), w)
    ensures Bounded(Path(s, w.direction), MoveWalk(s, w))
    ensures MoveWalk(s, w).ended || MoveWalk(s, w).visited == w.visited + [MoveWalk(s, w).at]
    ensures MoveWalk(s, w).ended <==> w.at == End(w.direction)
  {
    var d := w.direction;
    PathIsDistinct(s, d);
    PathHasAll(s, d);
    hide Linked, Distinct, WalkOk, Complete, After;
    if w.at in Path(s, d) {
      PointerLeadsOn(Path(s, d), Pointers(s, d), w.at);
      OnlyEndLeadsNowhere(Path(s, d), Pointers(s, d), w.at);
    } else {
      NotOnPath(s, w);
      AsideEnd(s, d, w.at);
      PointerLeadsOn(Path(s, d), Pointers(s, d), End(d));
    }
  }

  lemma OnlyEndLeadsNowhere(path: seq<nat>, pointers: map<nat, nat>, x: nat)
    requires Linked(path, pointers) && x in path
    ensures x !in pointers <==> x == path[|path| - 1]
  {
    var i :| 0 <= i < |path| && path[i] == x;
  }

  lemma NotOnPath(s: State, w: Walk)
    requires WalkFine(s, w) && !w.ended && w.at !in Path(s, w.direction) && End(w.direction) in Path(s, w.direction)
    ensures IsAside(s, w.direction, w.at)
  {
    hide After, Kept;
  }

  ghost predicate WalksBounded(s: State) {
    forall i :: 0 <= i < |s.walks| ==> Bounded(Path(s, s.walks[i].direction), s.walks[i])
  }

  lemma StartIsBounded(s: State, d: Direction, from: nat)
    requires Complete(s) && from in s.order
    ensures Bounded(Path(s, d), Walk(d, Ahead(s, d, from), from, [from], false))
  {
    hide Complete;
    if from in Path(s, d) {
      AfterIsShorter(Path(s, d), from);
    }
  }

  lemma StepKeepsBounded(s: State, step: Step)
    requires Complete(s) && WalksOk(s) && WalksBounded(s) && Enabled(s, step)
    ensures WalksBounded(Apply(s, step))
  {
    hide Complete, WalkFine, WalksOk, WalksBounded, Ahead, MoveWalk, Insert, Bounded, Grows, Path, Apply, Enabled;
    StepKeepsComplete(s, step);
    if step.Start? {
      StartKeepsBounded(s, step.direction, step.from);
    } else if step.Move? {
      MoveKeepsBounded(s, step.w);
    } else {
      InsertionKeepsBounded(s, step);
    }
  }

  lemma StartKeepsBounded(s: State, d: Direction, from: nat)
    requires Complete(s) && WalksBounded(s) && Enabled(s, Start(d, from))
    ensures WalksBounded(Apply(s, Start(d, from)))
  {
    hide Complete, Ahead, Bounded;
    StartIsBounded(s, d, from);
  }

  lemma MoveKeepsBounded(s: State, w: nat)
    requires Complete(s) && WalksOk(s) && WalksBounded(s) && Enabled(s, Move(w))
    ensures WalksBounded(Apply(s, Move(w)))
  {
    hide Complete, Bounded, MoveWalk, WalkFine;
    MoveGetsOn(s, s.walks[w]);
    MoveKeepsDirection(s, s.walks[w]);
  }

  lemma InsertionKeepsBounded(s: State, step: Step)
    requires Complete(s) && WalksBounded(s) && Enabled(s, step) && !step.Start? && !step.Move?
    requires forall d :: Grows(Path(s, d), Path(Apply(s, step), d))
    ensures WalksBounded(Apply(s, step))
  {
    hide Complete, Bounded, Grows, Path, Insert;
    var s' := Apply(s, step);
    forall i | 0 <= i < |s'.walks| ensures Bounded(Path(s', s'.walks[i].direction), s'.walks[i]) {
      var w := s.walks[i];
      PathHasEnds(s, w.direction);
      GrowthKeepsBounded(Path(s, w.direction), Path(s', w.direction), w);
    }
  }

  lemma MoveKeepsDirection(s: State, w: Walk)
    ensures MoveWalk(s, w).direction == w.direction
  {}

  lemma PathHasEnds(s: State, d: Direction)
    requires Complete(s)
    ensures 2 <= |Path(s, d)| <= |s.order|
  {
    hide Linked, Distinct;
  }

  lemma {:induction false} RunKeepsBounded(run: seq<State>, steps: seq<Step>, n: nat)
    requires IsRun(run, steps) && n < |run|
    ensures WalksBounded(run[n])
  {
    hide Apply, Enabled, Bounded;
    if n > 0 {
      RunKeepsBounded(run, steps, n - 1);
      RunInvariant(run, steps, n - 1);
      hide Complete, WalksOk, WalksBounded;
      StepKeepsBounded(run[n - 1], steps[n - 1]);
    }
  }

  /** No walk goes on for ever: each move brings it to one more context, or ends it, just at the end of the chain; and
      it has never come by more contexts than there are. */
  lemma WalksEnd(run: seq<State>, steps: seq<Step>, n: nat, w: nat)
    requires IsRun(run, steps) && n < |run| && w < |run[n].walks|
    ensures |run[n].walks[w].visited| <= |run[n].order|
    ensures n < |steps| && steps[n] == Move(w) ==>
      var before, after := run[n].walks[w], run[n + 1].walks[w];
      && (after.ended <==> before.at == End(before.direction))
      && (after.ended || after.visited == before.visited + [after.at])
  {
    RunInvariant(run, steps, n);
    RunKeepsBounded(run, steps, n);
    var s := run[n];
    PathHasEnds(s, s.walks[w].direction);
    if n < |steps| && steps[n] == Move(w) {
      assert Enabled(s, steps[n]) && run[n + 1] == Apply(s, steps[n]);
      hide IsRun, Complete, WalkFine, Bounded, MoveWalk;
      MoveGetsOn(s, s.walks[w]);
    }
  }

  /** An insertion can begin whenever none is under way, at either end, and with any new context. */
  lemma InsertionCanBegin(run: seq<State>, steps: seq<Step>, n: nat, ctx: nat)
    requires IsRun(run, steps) && n < |run| && run[n].pending.Idle? && ctx !in run[n].order
    ensures Enabled(run[n], BeginFirst(ctx)) && Enabled(run[n], BeginLast(ctx))
  {
    RunInvariant(run, steps, n);
    hide IsRun, WalksOk, Linked, Distinct;
    IdlePaths(run[n]);
    FirstPointer(run[n].order, run[n].next);
    FirstPointer(Reverse(run[n].order), run[n].prev);
    ReverseEnds(run[n].order);
  }
}
