/** What a chain of builder calls was written to say, and exactly when its SQL says that
    (`contribute/agdb/conditonwhere/where_clause_builder.go`). */
module ClauseCalls {
  import opened Options
  import opened Formulas
  import opened ClauseBuilder
  import opened ClauseMeaning
  import opened ClauseTheorem
  import opened ClauseArgs
  import opened ClauseFormula
  import opened ClauseParts
  import opened ClauseExact
  import opened ClauseChain

  // ----- What was written -----

  /** A group that is begun and not yet ended, with its operands so far. */
  datatype Begun = Begun(logic: Logic, operands: seq<Condition>)

  /** The groups begun and not yet ended, the whole outside of them first; and the operator for the next operand. */
  datatype Writing = Writing(open: seq<Begun>, pending: Logic)

  const UNREAD := Writing([Begun(Unset, [])], Unset)

  function WithOperand(open: seq<Begun>, c: Condition): (r: seq<Begun>)
    requires open != []
    ensures |r| == |open|
  {
    var n := |open| - 1;
    open[..n] + [Begun(open[n].logic, open[n].operands + [c])]
  }

  /** The operator of the next operand: the pending one, else AND. */
  function NextLogic(r: Writing): Logic {
    if r.pending.Unset? then LogicAnd else r.pending
  }

  /** A condition and a group added as one are operands of the group they stand in, and so is a group that is
      begun and ended; each is joined to the operands before it by its own operator. */
  function ReadCall(r: Writing, call: Call): (r': Writing)
    requires r.open != []
    ensures r'.open != []
  {
    var n := |r.open| - 1;
    match call
    case Leaf(field, operator, value) =>
      Writing(WithOperand(r.open, Condition(field, operator, value, NextLogic(r), [])), Unset)
    case AddCondition(c) =>
      var logic := if !c.logic.Unset? then c.logic
                   else if r.pending.Unset? && !r.open[n].logic.Unset? then r.open[n].logic else NextLogic(r);
      Writing(WithOperand(r.open, c.(logic := logic)), Unset)
    case Group(conditions) =>
      if conditions == [] then r else Writing(WithOperand(r.open, GroupOf(conditions, NextLogic(r))), Unset)
    case CallAnd => r.(pending := LogicAnd)
    case CallOr => r.(pending := LogicOr)
    case BeginGroup => Writing(r.open + [Begun(NextLogic(r), [])], Unset)
    case EndGroup =>
      if n == 0 then r
      else r.(open := WithOperand(r.open[..n], GroupOf(r.open[n].operands, r.open[n].logic)))
  }

  function ReadCalls(r: Writing, calls: seq<Call>): (r': Writing)
    requires r.open != []
    ensures r'.open != []
    decreases |calls|
  {
    if calls == [] then r else ReadCalls(ReadCall(r, calls[0]), calls[1..])
  }

  /** The groups still open are ended at the end. */
  function Ended(open: seq<Begun>): Condition
    requires open != []
    decreases |open|
  {
    GroupOf(open[0].operands + (if |open| == 1 then [] else [Ended(open[1..])]), open[0].logic)
  }

  /** What the calls were written to say. */
  function Intended(calls: seq<Call>): Condition {
    Ended(ReadCalls(UNREAD, calls).open)
  }

  // ----- The builder with a group around everything says that -----

  function Around(calls: seq<Call>): Chain {
    DoAll(Chain(Some(GroupOf([], Unset)), Unset, []), calls)
  }

  predicate Reads(s: Chain, r: Writing) {
    && r.open != [] && r.open[0].logic.Unset? && s.root == Some(Ended(r.open)) && s.pending == r.pending
    && |s.groups| == |r.open| - 1 && forall k :: 0 <= k < |s.groups| ==> s.groups[k] == k + 1
  }

  lemma {:induction false} EndedWithOperand(open: seq<Begun>, c: Condition)
    requires open != []
    ensures AddAt(Ended(open), |open| - 1, c) == Ended(WithOperand(open, c))
    decreases |open|
  {
    if |open| > 1 {
      var inner := Ended(open[1..]);
      EndedWithOperand(open[1..], c);
      assert WithOperand(open, c)[1..] == WithOperand(open[1..], c);
      assert WithOperand(open, c)[0] == open[0];
      var children := open[0].operands + [inner];
      assert children[..|children| - 1] == open[0].operands && children[|children| - 1] == inner;
    } else {
      assert open[0].operands + [] == open[0].operands && open[0].operands + [c] + [] == open[0].operands + [c];
    }
  }

  lemma {:induction false} EndedWithGroup(open: seq<Begun>, logic: Logic)
    requires open != []
    ensures Ended(open + [Begun(logic, [])]) == Ended(WithOperand(open, GroupOf([], logic)))
    decreases |open|
  {
    var more := open + [Begun(logic, [])];
    if |open| > 1 {
      assert more[1..] == open[1..] + [Begun(logic, [])];
      EndedWithGroup(open[1..], logic);
      assert WithOperand(open, GroupOf([], logic))[1..] == WithOperand(open[1..], GroupOf([], logic));
    } else {
      assert more[1..] == [Begun(logic, [])];
      assert Ended([Begun(logic, [])]) == GroupOf([], logic);
      assert open[0].operands + [GroupOf([], logic)] + [] == open[0].operands + [GroupOf([], logic)];
    }
  }

  lemma {:induction false} EndedGroup(open: seq<Begun>)
    requires |open| > 1
    ensures var n := |open| - 1;
      Ended(WithOperand(open[..n], GroupOf(open[n].operands, open[n].logic))) == Ended(open)
    decreases |open|
  {
    var n := |open| - 1;
    var group := GroupOf(open[n].operands, open[n].logic);
    var ended := WithOperand(open[..n], group);
    if n == 1 {
      assert open[1..] == [open[1]];
      assert open[1].operands + [] == open[1].operands;
      assert open[0].operands + [group] + [] == open[0].operands + [group];
    } else {
      EndedGroup(open[1..]);
      assert open[1..][..n - 1] == open[..n][1..];
      assert ended[1..] == WithOperand(open[..n][1..], group);
      assert ended[0] == open[0];
    }
  }

  lemma {:induction false} EndedNode(open: seq<Begun>)
    requires open != []
    ensures NodeAt(Ended(open), |open| - 1).Some? && NodeAt(Ended(open), |open| - 1).value.logic == open[|open| - 1].logic
    decreases |open|
  {
    if |open| > 1 {
      EndedNode(open[1..]);
      var children := open[0].operands + [Ended(open[1..])];
      assert children[|children| - 1] == Ended(open[1..]);
    }
  }

  lemma PutReads(s: Chain, r: Writing, c: Condition)
    requires Reads(s, r)
    ensures Put(s, c) == s.(root := Some(Ended(WithOperand(r.open, c))))
    ensures Reads(Put(s, c).(pending := Unset), Writing(WithOperand(r.open, c), Unset))
  {
    EndedWithOperand(r.open, c);
    hide Ended, AddAt;
  }

  lemma BeginReads(s: Chain, r: Writing)
    requires Reads(s, r)
    ensures Reads(Do(s, BeginGroup), ReadCall(r, BeginGroup))
  {
    PutReads(s, r, GroupOf([], NextLogic(r)));
    EndedWithGroup(r.open, NextLogic(r));
    hide Ended, WithOperand, Put;
  }

  lemma EndReads(s: Chain, r: Writing)
    requires Reads(s, r)
    ensures Reads(Do(s, EndGroup), ReadCall(r, EndGroup))
  {
    if |r.open| > 1 {
      EndedGroup(r.open);
    }
    hide Ended;
  }

  lemma CallReads(s: Chain, r: Writing, call: Call)
    requires Reads(s, r)
    ensures Reads(Do(s, call), ReadCall(r, call))
  {
    match call
    case BeginGroup => BeginReads(s, r);
    case EndGroup => EndReads(s, r);
    case AddCondition(c) =>
      AddedLogic(s, r, c);
      PutReads(s, r, if c.logic.Unset? then c.(logic := DefaultLogic(s)) else c);
      hide Ended, WithOperand, Put, NodeAt, Reads;
    case Leaf(field, operator, value) =>
      PutReads(s, r, Condition(field, operator, value, NextLogic(r), []));
      hide Ended, WithOperand, Put, Reads;
    case Group(conditions) =>
      if conditions != [] {
        PutReads(s, r, GroupOf(conditions, NextLogic(r)));
        hide Ended, WithOperand, Put, Reads;
      }
    case CallAnd =>
      hide Ended;
    case CallOr =>
      hide Ended;
  }

  lemma AddedLogic(s: Chain, r: Writing, c: Condition)
    requires Reads(s, r)
    ensures ReadCall(r, AddCondition(c))
         == Writing(WithOperand(r.open, if c.logic.Unset? then c.(logic := DefaultLogic(s)) else c), Unset)
  {
    EndedNode(r.open);
    hide Ended, WithOperand, NodeAt;
    if c.logic.Unset? {
      assert Target(s) == |r.open| - 1;
    } else {
      assert c.(logic := c.logic) == c;
    }
  }

  lemma {:induction false} CallsRead(s: Chain, r: Writing, calls: seq<Call>)
    requires Reads(s, r)
    ensures Reads(DoAll(s, calls), ReadCalls(r, calls))
    decreases |calls|
  {
    hide Do, ReadCall, Reads;
    ReadsMeans(s, r);
    if calls != [] {
      CallReads(s, r, calls[0]);
      ReadsMeans(Do(s, calls[0]), ReadCall(r, calls[0]));
      CallsRead(Do(s, calls[0]), ReadCall(r, calls[0]), calls[1..]);
    }
  }

  lemma ReadsMeans(s: Chain, r: Writing)
    requires Reads(s, r)
    ensures r.open != [] && s.root == Some(Ended(r.open))
  {
    hide Ended;
  }

  lemma AroundIsIntended(calls: seq<Call>)
    ensures Around(calls).root == Some(Intended(calls))
  {
    var s := Chain(Some(GroupOf([], Unset)), Unset, []);
    assert Ended(UNREAD.open) == GroupOf([], Unset);
    assert Reads(s, UNREAD);
    hide DoAll, ReadCalls, Ended, Reads;
    CallsRead(s, UNREAD, calls);
    ReadsMeans(DoAll(s, calls), ReadCalls(UNREAD, calls));
  }

  /** The conditions that calls hand over have no field next to children. */
  predicate GoodCalls(calls: seq<Call>) {
    forall i :: 0 <= i < |calls| ==> GoodCall(calls[i])
  }

  // ----- What the builder makes of it -----

  /** The first operand, without what was put below it after it was closed. */
  function FirstOnly(c: Condition, n: nat): Condition
    requires n <= |c.children|
  {
    c.(children := c.children[..n])
  }

  /** No condition yet. */
  predicate Blank(a: Chain, i: Chain) {
    a.root.None? && a.groups == [] == i.groups && i.root == Some(GroupOf([], Unset))
  }

  /** The first group is still open: the builder's root is what was written. */
  predicate InFirst(a: Chain, i: Chain) {
    && a.root.Some? && i.root == Some(GroupOf([a.root.value], Unset))
    && a.groups != [] && a.groups[0] == 0
    && |i.groups| == |a.groups| && forall k :: 0 <= k < |a.groups| ==> i.groups[k] == a.groups[k] + 1
  }

  /** Behind the first operand: what was written beside it the builder has put below it. */
  predicate PastFirst(a: Chain, i: Chain, n: nat) {
    && a.root.Some? && n <= |a.root.value.children|
    && i.root == Some(GroupOf([FirstOnly(a.root.value, n)] + a.root.value.children[n..], Unset))
    && a.groups == i.groups && (forall k :: 0 <= k < |a.groups| ==> a.groups[k] > 0)
    && (a.groups != [] ==> n < |a.root.value.children|)
  }

  ghost predicate Related(a: Chain, i: Chain) {
    a.pending == i.pending && (Blank(a, i) || InFirst(a, i) || exists n: nat :: PastFirst(a, i, n))
  }

  /** A condition put into both. */
  lemma PutRelated(a: Chain, i: Chain, c: Condition)
    requires Related(a, i)
    ensures var (a', i') := (Put(a, c), Put(i, c));
      && a'.root.Some? && a'.groups == a.groups && i'.groups == i.groups
      && (Blank(a, i) ==> a'.root == Some(c) && i'.root == Some(GroupOf([c], Unset)))
      && (InFirst(a, i) ==> InFirst(a', i'))
      && (!Blank(a, i) && !InFirst(a, i) ==>
            exists n: nat :: PastFirst(a', i', n) && n < |a'.root.value.children|)
  {
    if Blank(a, i) {
      assert [] + [c] == [c];
    } else if InFirst(a, i) {
      PutInFirst(a, i, c);
    } else {
      var n: nat :| PastFirst(a, i, n);
      PutPastFirst(a, i, n, c);
    }
  }

  lemma PutInFirst(a: Chain, i: Chain, c: Condition)
    requires InFirst(a, i)
    ensures InFirst(Put(a, c), Put(i, c))
  {
    var root, d := a.root.value, Target(a);
    assert [root][..0] + [AddAt(root, d, c)] == [AddAt(root, d, c)];
    assert AddAt(GroupOf([root], Unset), d + 1, c) == GroupOf([AddAt(root, d, c)], Unset);
  }

  lemma PutPastFirst(a: Chain, i: Chain, n: nat, c: Condition)
    requires PastFirst(a, i, n)
    ensures PastFirst(Put(a, c), Put(i, c), n) && n < |Put(a, c).root.value.children|
  {
    var root, d := a.root.value, Target(a);
    var written := [FirstOnly(root, n)] + root.children[n..];
    if a.groups == [] {
      assert (root.children + [c])[..n] == root.children[..n];
      assert (root.children + [c])[n..] == root.children[n..] + [c];
      assert written + [c] == [FirstOnly(root, n)] + (root.children[n..] + [c]);
    } else {
      var last := |root.children| - 1;
      var added := AddAt(root.children[last], d - 1, c);
      var children := root.children[..last] + [added];
      assert AddAt(root, d, c) == root.(children := children);
      assert children[..n] == root.children[..n];
      assert children[n..] == root.children[n..last] + [added];
      var w := |written| - 1;
      assert written[w] == root.children[last];
      assert written[..w] == [FirstOnly(root, n)] + root.children[n..last];
      assert AddAt(GroupOf(written, Unset), d, c) == GroupOf(written[..w] + [added], Unset);
      assert written[..w] + [added] == [FirstOnly(root, n)] + (root.children[n..last] + [added]);
    }
  }

  /** Both give a condition without an operator the same one. */
  lemma SameDefault(a: Chain, i: Chain)
    requires Related(a, i)
    ensures DefaultLogic(a) == DefaultLogic(i)
  {
    if a.groups != [] {
      var root, d := a.root.value, Target(a);
      if InFirst(a, i) {
        assert NodeAt(i.root.value, d + 1) == NodeAt(root, d);
      } else {
        var n: nat :| PastFirst(a, i, n);
        var written := [FirstOnly(root, n)] + root.children[n..];
        assert written[|written| - 1] == root.children[|root.children| - 1];
        assert NodeAt(i.root.value, d) == NodeAt(root, d);
      }
    }
  }

  lemma PastFirstIs(a: Chain, i: Chain, n: nat)
    requires PastFirst(a, i, n) && a.pending == i.pending
    ensures Related(a, i)
  {}

  /** A condition that is put into both and does not open a group. */
  lemma OperandRelated(a: Chain, i: Chain, c: Condition)
    requires Related(a, i)
    ensures Related(Put(a, c).(pending := Unset), Put(i, c).(pending := Unset))
  {
    var a', i' := Put(a, c).(pending := Unset), Put(i, c).(pending := Unset);
    PutRelated(a, i, c);
    hide Put;
    if Blank(a, i) {
      var n := |c.children|;
      assert FirstOnly(c, n) == c by { assert c.children[..n] == c.children; }
      assert [c] + c.children[n..] == [c];
      PastFirstIs(a', i', n);
    } else if !InFirst(a, i) {
      var n: nat :| PastFirst(Put(a, c), Put(i, c), n) && n < |Put(a, c).root.value.children|;
      PastFirstIs(a', i', n);
    }
  }

  function WithGroup(s: Chain, depth: nat): Chain {
    s.(pending := Unset, groups := s.groups + [depth])
  }

  lemma BeginIs(s: Chain)
    ensures Do(s, BeginGroup) == WithGroup(Put(s, GroupOf([], Pending(s))), if s.root.None? then 0 else Target(s) + 1)
  {
    hide AddAt;
  }

  lemma WithGroupInFirst(a: Chain, i: Chain, depth: nat)
    requires InFirst(a, i) || (a.groups == [] == i.groups && depth == 0 && a.root.Some? && i.root == Some(GroupOf([a.root.value], Unset)))
    ensures InFirst(WithGroup(a, depth), WithGroup(i, depth + 1))
  {}

  lemma WithGroupPastFirst(a: Chain, i: Chain, n: nat, depth: nat)
    requires PastFirst(a, i, n) && n < |a.root.value.children| && depth > 0
    ensures PastFirst(WithGroup(a, depth), WithGroup(i, depth), n)
  {}

  lemma Targets(a: Chain, i: Chain)
    requires Related(a, i)
    ensures i.root.Some? && (a.root.None? <==> Blank(a, i)) && Pending(a) == Pending(i)
    ensures Target(i) == if InFirst(a, i) then Target(a) + 1 else Target(a)
  {}

  lemma BeginRelated(a: Chain, i: Chain)
    requires Related(a, i)
    ensures Related(Do(a, BeginGroup), Do(i, BeginGroup))
  {
    var c := GroupOf([], Pending(a));
    PutRelated(a, i, c);
    BeginIs(a);
    BeginIs(i);
    Targets(a, i);
    hide Put, Do, PastFirst, Target, Pending;
    var p, q := Put(a, c), Put(i, c);
    if Blank(a, i) {
      WithGroupInFirst(p, q, 0);
    } else if InFirst(a, i) {
      WithGroupInFirst(p, q, Target(a) + 1);
    } else {
      var n: nat :| PastFirst(p, q, n) && n < |p.root.value.children|;
      WithGroupPastFirst(p, q, n, Target(a) + 1);
      PastFirstIs(WithGroup(p, Target(a) + 1), WithGroup(q, Target(a) + 1), n);
    }
  }

  lemma EndRelated(a: Chain, i: Chain)
    requires Related(a, i)
    ensures Related(Do(a, EndGroup), Do(i, EndGroup))
  {
    var a', i' := Do(a, EndGroup), Do(i, EndGroup);
    if InFirst(a, i) && |a.groups| == 1 {
      var root := a.root.value;
      var n := |root.children|;
      assert root.children[..n] == root.children && FirstOnly(root, n) == root;
      assert [root] + root.children[n..] == [root];
      PastFirstIs(a', i', n);
    } else if !Blank(a, i) && !InFirst(a, i) {
      var n: nat :| PastFirst(a, i, n);
      PastFirstIs(a', i', n);
    }
  }

  lemma CallRelated(a: Chain, i: Chain, call: Call)
    requires Related(a, i)
    ensures Related(Do(a, call), Do(i, call))
  {
    hide Put;
    match call
    case Leaf(field, operator, value) =>
      OperandRelated(a, i, Condition(field, operator, value, Pending(a), []));
    case AddCondition(c) =>
      SameDefault(a, i);
      OperandRelated(a, i, if c.logic.Unset? then c.(logic := DefaultLogic(a)) else c);
    case Group(conditions) =>
      if conditions != [] {
        OperandRelated(a, i, GroupOf(conditions, Pending(a)));
      }
    case BeginGroup => BeginRelated(a, i);
    case EndGroup => EndRelated(a, i);
    case CallAnd => PendingRelated(a, i, LogicAnd);
    case CallOr => PendingRelated(a, i, LogicOr);
  }

  lemma PendingRelated(a: Chain, i: Chain, logic: Logic)
    requires Related(a, i)
    ensures Related(a.(pending := logic), i.(pending := logic))
  {
    if !Blank(a, i) && !InFirst(a, i) {
      var n: nat :| PastFirst(a, i, n);
      PastFirstIs(a.(pending := logic), i.(pending := logic), n);
    }
  }

  lemma {:induction false} CallsRelated(a: Chain, i: Chain, calls: seq<Call>)
    requires Related(a, i)
    ensures Related(DoAll(a, calls), DoAll(i, calls))
    decreases |calls|
  {
    hide Do, Related;
    if calls != [] {
      CallRelated(a, i, calls[0]);
      CallsRelated(Do(a, calls[0]), Do(i, calls[0]), calls[1..]);
    }
  }

  /** Whatever is called, the builder has what was written, but for the operands behind the first one: they
      have become its children. */
  lemma FirstOperandTakesInTheRest(calls: seq<Call>) returns (n: nat)
    requires DoAll(EMPTY, calls).root.Some?
    ensures var root := DoAll(EMPTY, calls).root.value;
      n <= |root.children| && Intended(calls) == GroupOf([FirstOnly(root, n)] + root.children[n..], Unset)
  {
    hide Do, Put, Intended;
    AroundIsIntended(calls);
    CallsRelated(EMPTY, Chain(Some(GroupOf([], Unset)), Unset, []), calls);
    var a, i := DoAll(EMPTY, calls), Around(calls);
    hide DoAll;
    if InFirst(a, i) {
      n := |a.root.value.children|;
      assert a.root.value.children[..n] == a.root.value.children && FirstOnly(a.root.value, n) == a.root.value;
      assert [a.root.value] + a.root.value.children[n..] == [a.root.value];
    } else {
      n :| PastFirst(a, i, n);
    }
  }

  // ----- When that makes a difference -----

  /** The operators of the parts of a condition that say something: whether it is OR. */
  function JoinsOf(c: Condition): seq<bool> {
    (if OwnIsEmpty(c) then [] else [false]) + JoinsOfAll(c.children)
  }

  function JoinsOfAll(cs: seq<Condition>): seq<bool> {
    if cs == [] then [] else (if Speaks(cs[0]) then [cs[0].logic.LogicOr?] else []) + JoinsOfAll(cs[1..])
  }

  /** The first operand is a group with an OR in it, and an AND follows it. */
  predicate AndBehindFirstOr(written: Condition) {
    written.children != [] &&
    var first, behind := JoinsOf(written.children[0]), JoinsOfAll(written.children[1..]);
    && (exists k :: 0 < k < |first| && first[k])
    && behind != [] && !behind[0]
  }

  function Ors(parts: seq<Part>): seq<bool> {
    if parts == [] then [] else [parts[0].or] + Ors(parts[1..])
  }

  lemma {:induction false} OrsAt(parts: seq<Part>)
    ensures |Ors(parts)| == |parts| && forall k :: 0 <= k < |parts| ==> Ors(parts)[k] == parts[k].or
    decreases |parts|
  {
    if parts != [] {
      OrsAt(parts[1..]);
    }
  }

  lemma OrsJoined(p: seq<Part>, q: seq<Part>)
    ensures Ors(p + q) == Ors(p) + Ors(q)
  {
    OrsAt(p);
    OrsAt(q);
    OrsAt(p + q);
    hide Ors;
    assert |Ors(p + q)| == |Ors(p) + Ors(q)|;
  }

  lemma OrsOfOne(c: Condition, parts: seq<Part>)
    ensures Ors(AsOne(c, parts)) == if parts == [] then [] else [c.logic.LogicOr?]
  {
    hide SqlOf, Whole;
  }

  lemma {:induction false} JoinsOfTail(cs: seq<Condition>)
    requires AllBuilt(cs)
    ensures JoinsOfAll(cs) == Ors(MeantTail(cs))
    decreases |cs|
  {
    hide SqlOf, MeantParts, Speaks, Ors, AsOne;
    if cs == [] {
      NoOrs();
    } else {
      PartsTogether(cs[0]);
      JoinsOfTail(cs[1..]);
      OrsOfOne(cs[0], MeantParts(cs[0]));
      OrsJoined(AsOne(cs[0], MeantParts(cs[0])), MeantTail(cs[1..]));
    }
  }

  lemma NoOrs()
    ensures Ors([]) == []
  {}

  lemma JoinsOfParts(c: Condition)
    requires BuildSingleCondition(c).Sql? && AllBuilt(c.children)
    ensures JoinsOf(c) == Ors(MeantParts(c))
  {
    JoinsOfTail(c.children);
    OwnJoin(c);
    OrsJoined(OwnParts(c), MeantTail(c.children));
    hide MeantTail, JoinsOfAll, OwnParts, AllBuilt, BuildSingleCondition, Ors;
  }

  lemma OwnJoin(c: Condition)
    requires BuildSingleCondition(c).Sql?
    ensures Ors(OwnParts(c)) == if OwnIsEmpty(c) then [] else [false]
  {}

  lemma OrsHaveOr(parts: seq<Part>)
    ensures (exists k :: 0 < k < |Ors(parts)| && Ors(parts)[k]) <==> HasOr(parts)
    ensures |Ors(parts)| == |parts| && (parts != [] ==> Ors(parts)[0] == parts[0].or)
  {
    OrsAt(parts);
    hide Ors;
  }

  lemma {:induction false} TailJoined(a: seq<Condition>, b: seq<Condition>)
    ensures MeantTail(a + b) == MeantTail(a) + MeantTail(b)
    decreases |a|
  {
    hide MeantParts, AsOne;
    if a == [] {
      assert a + b == b;
    } else {
      assert (a + b)[1..] == a[1..] + b;
      TailJoined(a[1..], b);
      Regroup(AsOne(a[0], MeantParts(a[0])), MeantTail(a[1..]), MeantTail(b));
    }
  }

  lemma FirstOnlyIs(root: Condition, n: nat)
    requires n <= |root.children|
    ensures var first, rest := FirstOnly(root, n), root.children[n..];
      && first == root.(children := first.children) && first.children == root.children[..n]
      && root.children == first.children + rest
      && GroupOf([first] + rest, Unset).children == [first] + rest && GroupOf([first] + rest, Unset).field == ""
  {}

  lemma MeantPartsIs(c: Condition)
    ensures MeantParts(c) == OwnParts(c) + MeantTail(c.children)
  {}

  lemma NothingBefore(parts: seq<Part>)
    ensures [] + parts == parts
  {}

  /** The parts of the builder's root and of what was written. */
  lemma PartsOfBoth(root: Condition, n: nat)
    requires n <= |root.children|
    ensures var first, rest := FirstOnly(root, n), root.children[n..];
      && MeantParts(root) == MeantParts(first) + MeantTail(rest)
      && MeantParts(GroupOf([first] + rest, Unset)) == AsOne(first, MeantParts(first)) + MeantTail(rest)
  {
    hide *;
    FirstOnlyIs(root, n);
    var first, rest := FirstOnly(root, n), root.children[n..];
    var written := GroupOf([first] + rest, Unset);
    TailJoined(first.children, rest);
    TailJoined([first], rest);
    OwnPartsOf(root, first);
    OneInTail(first);
    NoOwnPartsOfGroup(written);
    MeantPartsIs(root);
    MeantPartsIs(first);
    MeantPartsIs(written);
    Regroup(OwnParts(root), MeantTail(first.children), MeantTail(rest));
    NothingBefore(MeantTail(written.children));
  }

  lemma NoOwnPartsOfGroup(c: Condition)
    requires c.field == ""
    ensures OwnParts(c) == []
  {}

  lemma OwnPartsOf(c: Condition, d: Condition)
    requires d == c.(children := d.children)
    ensures OwnParts(c) == OwnParts(d)
  {}

  lemma OneInTail(c: Condition)
    ensures MeantTail([c]) == AsOne(c, MeantParts(c))
  {
    hide MeantParts, AsOne;
    assert [c][1..] == [];
    assert AsOne(c, MeantParts(c)) + [] == AsOne(c, MeantParts(c));
  }

  lemma {:induction false} GatherBuilt(g: Gathered, cs: seq<Condition>)
    requires g.Gathered? && AllBuilt(cs)
    ensures Gather(g, cs).Gathered?
    decreases cs
  {
    hide SqlOf;
    if cs != [] {
      GatherBuilt(Join(g, cs[0].logic, SqlOf(cs[0])), cs[1..]);
    }
  }

  lemma BuiltFromParts(c: Condition)
    requires BuildSingleCondition(c).Sql? && AllBuilt(c.children)
    ensures SqlOf(c).Sql?
  {
    GatherBuilt(Start(BuildSingleCondition(c)), c.children);
    hide Gather, AllBuilt;
  }

  lemma SameOwn(c: Condition, d: Condition)
    requires d == c.(children := d.children)
    ensures BuildSingleCondition(c) == BuildSingleCondition(d)
  {}

  /** Both are built when the builder's root is. */
  lemma BothAreBuilt(root: Condition, n: nat)
    requires n <= |root.children| && SqlOf(root).Sql?
    ensures BuildSingleCondition(FirstOnly(root, n)).Sql? && AllBuilt(FirstOnly(root, n).children)
    ensures SqlOf(FirstOnly(root, n)).Sql? && AllBuilt(root.children[n..])
    ensures SqlOf(GroupOf([FirstOnly(root, n)] + root.children[n..], Unset)).Sql?
  {
    hide SqlOf, BuildSingleCondition;
    var first, rest := FirstOnly(root, n), root.children[n..];
    BuiltParts(root);
    SameOwn(root, first);
    BuiltFromParts(first);
    GroupBuildsNothing([first] + rest);
    BuiltFromParts(GroupOf([first] + rest, Unset));
  }

  lemma GroupBuildsNothing(cs: seq<Condition>)
    ensures BuildSingleCondition(GroupOf(cs, Unset)) == NOTHING
  {}

  /** Parts `p` as one part before `q`, and mixed with them. */
  lemma MixedTheSame(env: Env, c: Condition, p: seq<Part>, q: seq<Part>)
    requires p != [] && !(HasOr(p) && q != [] && !q[0].or)
    ensures AsOne(c, p) + q != [] && p + q != []
    ensures Eval(env, Whole(AsOne(c, p) + q)) == Eval(env, Whole(p + q))
  {
    hide SqlOf;
    var one := AsOne(c, p);
    assert (one + q)[0].formula == Whole(p) && (one + q)[1..] == q;
    assert (p + q)[0] == p[0] && (p + q)[1..] == p[1..] + q;
    if q == [] {
      assert p[1..] + q == p[1..];
    } else if q[0].or {
      OrGoesOn(env, p[0].formula, p[1..], q);
    } else {
      forall k | 0 <= k < |p[1..]| ensures !p[1..][k].or {
        assert p[1..][k] == p[k + 1];
      }
      RunGoesOn(p[0].formula, p[1..], q);
    }
  }

  lemma MixedDiffer(c: Condition, p: seq<Part>, q: seq<Part>) returns (s: set<Bound>)
    requires HasOr(p) && q != [] && !q[0].or && NoRepeats(NamesOf(p + q))
    ensures AsOne(c, p) + q != [] && p + q != []
    ensures Eval(Holding(s), Whole(AsOne(c, p) + q)) != Eval(Holding(s), Whole(p + q))
  {
    hide SqlOf, Eval, Whole, Gate, Names, NamesOf, NoRepeats;
    var one, all := AsOne(c, p) + q, p + q;
    NamesOfWhole(p);
    NamesOfWhole(one);
    NamesOfWhole(all);
    NamesOfOne(c, p);
    NamesOfJoined(AsOne(c, p), q);
    NamesOfJoined(p, q);
    FormulaNames(p[0].formula);
    FormulaNames(q[0].formula);
    var a, b := Names(p[0].formula)[0], Names(q[0].formula)[0];
    NameOfPart(p, 0, a);
    assert one[0].formula == Whole(p) && one[1] == q[0] && !one[1].or && a in Names(one[1 - 1].formula);
    LinkedMeet(one, a, b);
    var k :| 0 < k < |p| && p[k].or;
    assert all[k] == p[k] && all[0] == p[0] && all[|p|] == q[0];
    assert Divides(all, 0, k, |p|, a, b);
    ApartMeet(all, a, b);
    s := MeetingsTellApart(Whole(one), Whole(all), a, b);
  }

  // ----- Main result -----

  /** The SQL of the chain reads as what was written. */
  ghost predicate SaysWhatWasWritten(env: Env, calls: seq<Call>)
    requires DoAll(EMPTY, calls).root.Some? && SqlOf(DoAll(EMPTY, calls).root.value).Sql?
  {
    var root := DoAll(EMPTY, calls).root.value;
    && Meaning(env, Intended(calls)).Some?
    && ReadExpr(env, SqlOf(root).tokens, SqlOf(root).args) == Read(Meaning(env, Intended(calls)).value, [], [])
  }

  /** The meanings of the builder's root and of what was written. */
  lemma MeaningsOfBoth(env: Env, root: Condition, n: nat)
    requires n <= |root.children| && SqlOf(root).Sql? && Speaks(root)
    ensures var first, q := FirstOnly(root, n), MeantTail(root.children[n..]);
      var written := GroupOf([first] + root.children[n..], Unset);
      var p := MeantParts(first);
      && p + q != [] && AsOne(first, p) + q != []
      && Meaning(env, root) == Some(Eval(env, Whole(p + q)))
      && Meaning(env, written) == Some(Eval(env, Whole(AsOne(first, p) + q)))
      && Leaves(root) == NamesOf(p + q)
      && (AndBehindFirstOr(written) <==> HasOr(p) && q != [] && !q[0].or)
  {
    var first, rest := FirstOnly(root, n), root.children[n..];
    var written := GroupOf([first] + rest, Unset);
    hide *;
    BothAreBuilt(root, n);
    PartsOfBoth(root, n);
    PartsMean(env, root);
    PartsMean(env, written);
    PartsTogether(root);
    MeantNames(root);
    JoinsOfParts(first);
    JoinsOfTail(rest);
    OrsHaveOr(MeantParts(first));
    OrsHaveOr(MeantTail(rest));
    WrittenJoins(first, rest);
    NoneAsOne(first, MeantParts(first), MeantTail(rest));
  }

  lemma NoneAsOne(c: Condition, p: seq<Part>, q: seq<Part>)
    ensures AsOne(c, p) + q == [] <==> p + q == []
  {
    hide SqlOf, Whole;
    assert |AsOne(c, p)| == if p == [] then 0 else 1;
    hide AsOne;
  }

  lemma WrittenJoins(first: Condition, rest: seq<Condition>)
    ensures GroupOf([first] + rest, Unset).children == [first] + rest
    ensures AndBehindFirstOr(GroupOf([first] + rest, Unset)) <==>
      && (exists k :: 0 < k < |JoinsOf(first)| && JoinsOf(first)[k])
      && JoinsOfAll(rest) != [] && !JoinsOfAll(rest)[0]
  {
    hide JoinsOf, JoinsOfAll;
    assert ([first] + rest)[1..] == rest;
  }

  /** The SQL of a chain of calls that repeats no predicate says what was written, for every truth of the
      predicates, if and only if the first operand is not a group with an OR in it and an AND behind it. The
      builder makes the first condition its root, and what stands beside it a child of it: that group,
      begun and ended or added as one, takes in what follows. */
  lemma ChainsSayWhatWasWritten(calls: seq<Call>)
    requires GoodCalls(calls) && DoAll(EMPTY, calls).root.Some?
    requires SqlOf(DoAll(EMPTY, calls).root.value).Sql? && Speaks(DoAll(EMPTY, calls).root.value)
    requires NoRepeats(Leaves(DoAll(EMPTY, calls).root.value))
    ensures (forall env: Env :: SaysWhatWasWritten(env, calls)) <==> !AndBehindFirstOr(Intended(calls))
  {
    hide *;
    var root := DoAll(EMPTY, calls).root.value;
    var n := FirstOperandTakesInTheRest(calls);
    var first := FirstOnly(root, n);
    var p, q := MeantParts(first), MeantTail(root.children[n..]);
    MeaningsOfBoth(Holding({}), root, n);
    forall env: Env ensures SaysWhatWasWritten(env, calls) <==> Eval(env, Whole(AsOne(first, p) + q)) == Eval(env, Whole(p + q)) {
      MeaningsOfBoth(env, root, n);
      ReadsItsMeaning(env, calls);
    }
    if AndBehindFirstOr(Intended(calls)) {
      var s := MixedDiffer(first, p, q);
      assert !SaysWhatWasWritten(Holding(s), calls);
    } else {
      forall env: Env ensures SaysWhatWasWritten(env, calls) {
        if p != [] {
          MixedTheSame(env, first, p, q);
        } else {
          NothingAsOne(first, q);
          assert p + q == q;
        }
      }
    }
  }

  lemma ReadsItsMeaning(env: Env, calls: seq<Call>)
    requires GoodCalls(calls) && DoAll(EMPTY, calls).root.Some?
    requires SqlOf(DoAll(EMPTY, calls).root.value).Sql? && Speaks(DoAll(EMPTY, calls).root.value)
    requires Meaning(env, Intended(calls)).Some?
    ensures Meaning(env, DoAll(EMPTY, calls).root.value).Some?
    ensures SaysWhatWasWritten(env, calls) <==>
      Meaning(env, Intended(calls)) == Meaning(env, DoAll(EMPTY, calls).root.value)
  {
    hide DoAll, Meaning, SqlOf, ReadExpr, Intended, Speaks, GoodCall;
    ChainsKeepTheMeaning(env, calls);
  }
}
