/** The chain of builder calls and the trees it makes
    (`contribute/agdb/conditonwhere/where_clause_builder.go`). */
module ClauseChain {
  import opened Options
  import opened ClauseBuilder
  import opened ClauseMeaning
  import opened Formulas
  import opened ClauseTheorem
  import opened ClauseArgs

  datatype Call =
    | Leaf(field: string, operator: Operator, value: Value)   // Eq, Neq, Gt, Lt, Gte, Lte, In, NotIn, Between
    | AddCondition(c: Condition)
    | Group(conditions: seq<Condition>)
    | CallAnd
    | CallOr
    | BeginGroup
    | EndGroup

  /** The root, the operator for the next condition, and the open groups: how far down the last children of
      the tree each of them is. */
  datatype Chain = Chain(root: Option<Condition>, pending: Logic, groups: seq<nat>)

  const EMPTY := Chain(None, Unset, [])

  /** The node `depth` steps down the last children. */
  function NodeAt(c: Condition, depth: nat): Option<Condition>
    decreases depth
  {
    if depth == 0 then Some(c)
    else if c.children == [] then None
    else NodeAt(c.children[|c.children| - 1], depth - 1)
  }

  /** Adds a child to that node. */
  function AddAt(c: Condition, depth: nat, child: Condition): Condition
    decreases depth
  {
    if depth == 0 then c.(children := c.children + [child])
    else if c.children == [] then c
    else
      var last := |c.children| - 1;
      c.(children := c.children[..last] + [AddAt(c.children[last], depth - 1, child)])
  }

  function Target(s: Chain): nat {
    if s.groups == [] then 0 else s.groups[|s.groups| - 1]
  }

  /** Puts a condition below the innermost open group, or below the root, or as the root. */
  function Put(s: Chain, c: Condition): Chain {
    s.(root := Some(if s.root.None? then c else AddAt(s.root.value, Target(s), c)))
  }

  function Pending(s: Chain): Logic {
    if s.pending.Unset? then LogicAnd else s.pending
  }

  /** The operator a condition without one gets: the pending one, else that of the innermost group. */
  function DefaultLogic(s: Chain): Logic {
    if !s.pending.Unset? then s.pending
    else if s.groups != [] && s.root.Some? && NodeAt(s.root.value, Target(s)).Some?
            && !NodeAt(s.root.value, Target(s)).value.logic.Unset?
    then NodeAt(s.root.value, Target(s)).value.logic
    else LogicAnd
  }

  function GroupOf(conditions: seq<Condition>, logic: Logic): Condition {
    Condition("", Unsupported(""), Scalar(0), logic, conditions)
  }

  function Do(s: Chain, call: Call): Chain {
    match call
    case Leaf(field, operator, value) =>
      Put(s, Condition(field, operator, value, Pending(s), [])).(pending := Unset)
    case AddCondition(c) =>
      Put(s, if c.logic.Unset? then c.(logic := DefaultLogic(s)) else c).(pending := Unset)
    case Group(conditions) =>
      if conditions == [] then s else Put(s, GroupOf(conditions, Pending(s))).(pending := Unset)
    case CallAnd => s.(pending := LogicAnd)
    case CallOr => s.(pending := LogicOr)
    case BeginGroup =>
      Put(s, GroupOf([], Pending(s)))
        .(pending := Unset, groups := s.groups + [if s.root.None? then 0 else Target(s) + 1])
    case EndGroup => if s.groups == [] then s else s.(groups := s.groups[..|s.groups| - 1])
  }

  function DoAll(s: Chain, calls: seq<Call>): Chain
    decreases |calls|
  {
    if calls == [] then s else DoAll(Do(s, calls[0]), calls[1..])
  }

  // ----- The builder of the source -----

  class WhereClauseBuilder {
    var root: Option<Condition>
    var pendingLogic: Logic
    var groupStack: seq<nat>

    ghost function Calls(): Chain
      reads this
    {
      Chain(root, pendingLogic, groupStack)
    }

    constructor ()
      ensures Calls() == EMPTY
    {
      root, pendingLogic, groupStack := None, Unset, [];
    }

    method PutBelow(c: Condition)
      modifies this`root
      ensures Calls() == Put(old(Calls()), c)
    {
      var target := if |groupStack| > 0 then groupStack[|groupStack| - 1] else 0;
      if root.None? {
        root := Some(c);
      } else {
        root := Some(AddAt(root.value, target, c));
      }
    }

    method TakePending() returns (logic: Logic)
      modifies this`pendingLogic
      ensures logic == Pending(old(Calls())) && pendingLogic == Unset
    {
      logic := if pendingLogic.Unset? then LogicAnd else pendingLogic;
      pendingLogic := Unset;
    }

    method AddLeaf(field: string, operator: Operator, value: Value)
      modifies this
      ensures Calls() == Do(old(Calls()), Leaf(field, operator, value))
    {
      var logic := TakePending();
      Add(Condition(field, operator, value, logic, []));
    }

    method Add(c: Condition)
      modifies this
      ensures Calls() == Do(old(Calls()), AddCondition(c))
    {
      var cond := c;
      if c.logic.Unset? {
        var logic := pendingLogic;
        if logic.Unset? {
          if |groupStack| > 0 && root.Some? {
            var group := NodeAt(root.value, groupStack[|groupStack| - 1]);
            if group.Some? {
              logic := group.value.logic;
            }
          }
          if logic.Unset? {
            logic := LogicAnd;
          }
        }
        cond := c.(logic := logic);
      }
      pendingLogic := Unset;
      PutBelow(cond);
    }

    method AddGroup(conditions: seq<Condition>)
      modifies this
      ensures Calls() == Do(old(Calls()), Group(conditions))
    {
      if conditions == [] {
        return;
      }
      var logic := TakePending();
      Add(GroupOf(conditions, logic));
    }

    method Open()
      modifies this
      ensures Calls() == Do(old(Calls()), BeginGroup)
    {
      var logic := TakePending();
      var depth := if root.None? then 0 else if |groupStack| > 0 then groupStack[|groupStack| - 1] + 1 else 1;
      PutBelow(GroupOf([], logic));
      groupStack := groupStack + [depth];
    }

    method Close()
      modifies this
      ensures Calls() == Do(old(Calls()), EndGroup)
    {
      if |groupStack| > 0 {
        groupStack := groupStack[..|groupStack| - 1];
      }
    }

    method Or()
      modifies this
      ensures Calls() == Do(old(Calls()), CallOr)
    {
      pendingLogic := LogicOr;
    }

    method And()
      modifies this
      ensures Calls() == Do(old(Calls()), CallAnd)
    {
      pendingLogic := LogicAnd;
    }

    method Build() returns (r: Built)
      ensures r == if root.None? then NOTHING else SqlOf(root.value)
    {
      if root.None? {
        return NOTHING;
      }
      r := BuildWhereCondition(root.value);
    }
  }

  // ----- What chains make -----

  /** Conditions handed to the chain have no field next to children. */
  predicate GoodCall(call: Call) {
    match call
    case AddCondition(c) => NoneHasBoth(c)
    case Group(conditions) => forall i :: 0 <= i < |conditions| ==> NoneHasBoth(conditions[i])
    case _ => true
  }

  /** The open groups lie one below the other along the last children. */
  ghost predicate ChainOk(s: Chain) {
    if s.root.None? then s.groups == []
    else
      && OnlyRootHasBoth(s.root.value)
      && (forall i :: 0 < i < |s.groups| ==> s.groups[i] == s.groups[i - 1] + 1)
      && (forall i :: 0 <= i < |s.groups| ==> IsGroupAt(s.root.value, s.groups[i]))
  }

  predicate IsGroupAt(c: Condition, depth: nat) {
    NodeAt(c, depth).Some? && NodeAt(c, depth).value.field == ""
  }

  lemma {:induction false} AddKeepsNone(c: Condition, depth: nat, child: Condition)
    requires NoneHasBoth(c) && NoneHasBoth(child) && IsGroupAt(c, depth)
    ensures NoneHasBoth(AddAt(c, depth, child))
    decreases depth
  {
    if depth > 0 {
      AddKeepsNone(c.children[|c.children| - 1], depth - 1, child);
    }
  }

  lemma AddKeepsOnlyRoot(c: Condition, depth: nat, child: Condition)
    requires OnlyRootHasBoth(c) && NoneHasBoth(child) && (depth == 0 || IsGroupAt(c, depth))
    ensures OnlyRootHasBoth(AddAt(c, depth, child))
  {
    if depth > 0 {
      AddKeepsNone(c.children[|c.children| - 1], depth - 1, child);
    }
  }

  /** The nodes on the way keep their fields, and the child is the next one down. */
  lemma {:induction false} AddKeepsNodes(c: Condition, depth: nat, child: Condition, at: nat)
    requires NodeAt(c, depth).Some? && at <= depth
    ensures NodeAt(AddAt(c, depth, child), at).Some? && NodeAt(c, at).Some?
    ensures NodeAt(AddAt(c, depth, child), at).value.field == NodeAt(c, at).value.field
    ensures NodeAt(AddAt(c, depth, child), depth + 1) == Some(child)
    decreases depth
  {
    if depth > 0 {
      var last := c.children[|c.children| - 1];
      AddKeepsNodes(last, depth - 1, child, if at > 0 then at - 1 else 0);
    } else {
      assert NodeAt(child, 0) == Some(child);
    }
  }

  lemma PutKeepsChainOk(s: Chain, c: Condition)
    requires ChainOk(s) && NoneHasBoth(c)
    ensures ChainOk(Put(s, c))
    ensures c.field == "" ==> IsGroupAt(Put(s, c).root.value, if s.root.None? then 0 else Target(s) + 1)
  {
    hide NodeAt, AddAt, OnlyRootHasBoth, NoneHasBoth;
    NodeAtRoot(c);
    if s.root.None? {
      NoneMeansOnlyRoot(c);
    } else {
      var root, target := s.root.value, Target(s);
      NodeAtRoot(root);
      AddKeepsOnlyRoot(root, target, c);
      AddKeepsNodes(root, target, c, target);
      forall i | 0 <= i < |s.groups| ensures IsGroupAt(AddAt(root, target, c), s.groups[i]) {
        GroupsGrow(s.groups, i, |s.groups| - 1);
        AddKeepsNodes(root, target, c, s.groups[i]);
      }
    }
  }

  lemma NodeAtRoot(c: Condition)
    ensures NodeAt(c, 0) == Some(c)
  {}

  lemma NoneMeansOnlyRoot(c: Condition)
    requires NoneHasBoth(c)
    ensures OnlyRootHasBoth(c)
  {}

  lemma {:induction false} GroupsGrow(groups: seq<nat>, i: nat, j: nat)
    requires i <= j < |groups| && forall k :: 0 < k < |groups| ==> groups[k] == groups[k - 1] + 1
    ensures groups[i] <= groups[j]
    decreases j
  {
    if i < j {
      GroupsGrow(groups, i, j - 1);
    }
  }

  lemma CallKeepsChainOk(s: Chain, call: Call)
    requires ChainOk(s) && GoodCall(call)
    ensures ChainOk(Do(s, call))
  {
    hide NodeAt, AddAt;
    match call
    case Leaf(field, operator, value) =>
      PutKeepsChainOk(s, Condition(field, operator, value, Pending(s), []));
    case AddCondition(c) =>
      PutKeepsChainOk(s, if c.logic.Unset? then c.(logic := DefaultLogic(s)) else c);
    case Group(conditions) =>
      PutKeepsChainOk(s, GroupOf(conditions, Pending(s)));
    case BeginGroup =>
      PutKeepsChainOk(s, GroupOf([], Pending(s)));
    case _ =>
  }

  lemma {:induction false} ChainsAreOk(s: Chain, calls: seq<Call>)
    requires ChainOk(s) && forall i :: 0 <= i < |calls| ==> GoodCall(calls[i])
    ensures ChainOk(DoAll(s, calls))
    decreases |calls|
  {
    hide Do, ChainOk, GoodCall;
    if calls != [] {
      CallKeepsChainOk(s, calls[0]);
      ChainsAreOk(Do(s, calls[0]), calls[1..]);
    }
  }

  /** Whatever chain of calls built it, the SQL has the meaning of the tree. */
  lemma ChainsKeepTheMeaning(env: Env, calls: seq<Call>)
    requires forall i :: 0 <= i < |calls| ==> GoodCall(calls[i])
    ensures var s := DoAll(EMPTY, calls);
      s.root.Some? && SqlOf(s.root.value).Sql? && Speaks(s.root.value) ==>
        && Meaning(env, s.root.value).Some?
        && ReadExpr(env, SqlOf(s.root.value).tokens, SqlOf(s.root.value).args)
             == Read(Meaning(env, s.root.value).value, [], [])
  {
    hide DoAll, Meaning, ReadExpr, SqlOf, OnlyRootHasBoth, GoodCall;
    ChainsAreOk(EMPTY, calls);
    var s := DoAll(EMPTY, calls);
    if s.root.Some? && SqlOf(s.root.value).Sql? && Speaks(s.root.value) {
      SpeaksMeans(s.root.value);
      OnlyRootWithBothKeepsTheMeaning(env, s.root.value);
    }
  }

  // ----- Where the tree is not what the calls suggest -----

  /** Truth from false over unknown to true. */
  predicate AtMost(a: Truth, b: Truth) {
    a.False? || b.True? || a == b
  }

  /** A comparison of a field with one value. */
  predicate Comparison(c: Condition) {
    c.field != "" && IsComparison(c.operator) && c.children == []
  }

  function Truthful(env: Env, c: Condition): Truth {
    env(Bound(c.field, c.operator, [c.value]))
  }

  lemma ComparisonMeans(env: Env, c: Condition)
    requires Comparison(c)
    ensures Meaning(env, c) == Some(Truthful(env, c))
    ensures SqlOf(c) == Sql([Predicate(c.field, c.operator, 1)], [c.value])
    ensures TermLike(env, SqlOf(c).tokens, SqlOf(c).args, Truthful(env, c))
  {
    assert [Item(Unset, Truthful(env, c))] + [] == [Item(Unset, Truthful(env, c))];
    hide FactorLike, TermLike;
    PredicateIsFactor(env, c.field, c.operator, [c.value]);
    FactorIsTerm(env, [Predicate(c.field, c.operator, 1)], [c.value], Truthful(env, c));
  }

  lemma ThreeMean(env: Env, x: Condition, y: Condition, z: Condition, l: Logic)
    requires Comparison(x) && Comparison(y) && Comparison(z) && y.logic.LogicOr? && !z.logic.LogicOr?
    ensures Meaning(env, GroupOf([x, y, z], l))
         == Some(Disjunction(Truthful(env, x), Conjunction(Truthful(env, y), Truthful(env, z))))
  {
    ComparisonMeans(env, x);
    ComparisonMeans(env, y);
    ComparisonMeans(env, z);
    hide TermLike, SqlOf;
    var a, b, c := Item(x.logic, Truthful(env, x)), Item(y.logic, Truthful(env, y)), Item(z.logic, Truthful(env, z));
    assert Items(env, [z]) == [c] by { assert [z][1..] == []; assert [c] + [] == [c]; }
    assert Items(env, [y, z]) == [b, c] by { assert [y, z][1..] == [z]; }
    assert Items(env, [x, y, z]) == [a, b, c] by { assert [x, y, z][1..] == [y, z]; }
    assert [] + [a, b, c] == [a, b, c];
    assert [a, b, c][1..] == [b, c];
    ValueOfOne(a);
    ValueOfTwo(b, c);
    assert AfterRun([a, b, c]) == [b, c] && FirstRun([a, b, c]) == a.value;
  }

  lemma ValueOfOne(a: Item)
    ensures ValueOf([a]) == a.value
  {
    assert [a][1..] == [];
  }

  lemma ValueOfTwo(a: Item, b: Item)
    ensures ValueOf([a, b]) == if b.logic.LogicOr? then Disjunction(a.value, b.value) else Conjunction(a.value, b.value)
  {
    assert [a, b][1..] == [b] && [b][1..] == [];
    ValueOfOne(b);
  }

  /** The calls for a group of two comparisons joined by OR and, after the group, a third one. */
  function GroupThenThird(x: Condition, y: Condition, z: Condition): Chain {
    Do(Do(Do(Do(Do(Do(EMPTY, BeginGroup), Leaf(x.field, x.operator, x.value)), CallOr),
             Leaf(y.field, y.operator, y.value)), EndGroup), Leaf(z.field, z.operator, z.value))
  }

  lemma GroupThenThirdMakes(x: Condition, y: Condition, z: Condition)
    requires Comparison(x) && Comparison(y) && Comparison(z)
    ensures GroupThenThird(x, y, z).root ==
      Some(GroupOf([x.(logic := LogicAnd), y.(logic := LogicOr), z.(logic := LogicAnd)], LogicAnd))
  {
    var x', y', z' := x.(logic := LogicAnd), y.(logic := LogicOr), z.(logic := LogicAnd);
    var s1 := Do(EMPTY, BeginGroup);
    assert s1 == Chain(Some(GroupOf([], LogicAnd)), Unset, [0]);
    var s2 := Do(s1, Leaf(x.field, x.operator, x.value));
    assert [] + [x'] == [x'];
    assert s2 == Chain(Some(GroupOf([x'], LogicAnd)), Unset, [0]);
    var s4 := Do(Do(s2, CallOr), Leaf(y.field, y.operator, y.value));
    assert [x'] + [y'] == [x', y'];
    assert s4 == Chain(Some(GroupOf([x', y'], LogicAnd)), Unset, [0]);
    assert [x', y'] + [z'] == [x', y', z'];
  }

  /** Opening a group as the first call with `x OR y`, closing it and adding `z` gives `x OR y AND z`. That
      is what was written, `(x OR y) AND z`, exactly when `x` is at most as true as `z`. */
  lemma ClosedFirstGroup(env: Env, x: Condition, y: Condition, z: Condition)
    requires Comparison(x) && Comparison(y) && Comparison(z)
    ensures GroupThenThird(x, y, z).root.Some?
    ensures var a, b, c := Truthful(env, x), Truthful(env, y), Truthful(env, z);
      Meaning(env, GroupThenThird(x, y, z).root.value) == Some(Conjunction(Disjunction(a, b), c)) <==> AtMost(a, c)
  {
    hide Do, Meaning, GroupThenThird;
    GroupThenThirdMakes(x, y, z);
    ThreeMean(env, x.(logic := LogicAnd), y.(logic := LogicOr), z.(logic := LogicAnd), LogicAnd);
  }

  // ----- Where the SQL is not what the tree means -----

  /** A group of `x` and of `y` with a child `z` joined to it by OR, beside it by AND. */
  function BareOrBesideAnd(x: Condition, y: Condition, z: Condition): Condition {
    GroupOf([x, y.(logic := LogicAnd, children := [z.(logic := LogicOr)])], LogicAnd)
  }

  function Text(c: Condition): seq<Token> {
    [Predicate(c.field, c.operator, 1)]
  }

  function WithOrChild(y: Condition, z: Condition): Condition {
    y.(logic := LogicAnd, children := [z.(logic := LogicOr)])
  }

  lemma WithOrChildText(y: Condition, z: Condition)
    requires Comparison(y) && Comparison(z)
    ensures SqlOf(WithOrChild(y, z)) == Sql(Text(y) + ([Or] + Text(z)), [y.value] + [z.value])
  {
    var z' := z.(logic := LogicOr);
    var y' := WithOrChild(y, z);
    assert SqlOf(z') == Sql(Text(z), [z.value]);
    assert [z'][1..] == [];
    var inner := Gathered(Text(y) + ([Or] + Text(z)), [y.value] + [z.value], false, true);
    assert Gather(Start(BuildSingleCondition(y')), [z']) == inner;
  }

  lemma BareOrText(x: Condition, y: Condition, z: Condition)
    requires Comparison(x) && Comparison(y) && Comparison(z)
    ensures SqlOf(BareOrBesideAnd(x, y, z)) == Sql(
      [Open] + ((Text(x) + ([And] + Text(y))) + ([Or] + Text(z))) + [Close], ([x.value] + [y.value]) + [z.value])
  {
    var y' := WithOrChild(y, z);
    assert SqlOf(x) == Sql(Text(x), [x.value]);
    WithOrChildText(y, z);
    hide SqlOf;
    assert [x, y'][1..] == [y'] && [y'][1..] == [];
    assert [] + [x.value] == [x.value];
    var first := Gathered(Text(x), [x.value], false, false);
    assert Join(Start(NOTHING), x.logic, SqlOf(x)) == first;
    var whole := Gathered(Text(x) + ([And] + SqlOf(y').tokens), [x.value] + SqlOf(y').args, true, false);
    assert Gather(first, [y']) == whole;
    assert Gather(Start(NOTHING), [x, y']) == whole;
    assert whole.tokens == (Text(x) + ([And] + Text(y))) + ([Or] + Text(z));
    assert whole.args == ([x.value] + [y.value]) + [z.value];
    SqlMeans(BareOrBesideAnd(x, y, z));
  }

  lemma ItemsOfOne(env: Env, c: Condition)
    requires Meaning(env, c).Some?
    ensures Items(env, [c]) == [Item(c.logic, Meaning(env, c).value)]
  {
    hide Meaning;
    assert [c][1..] == [];
  }

  lemma WithOrChildMeans(env: Env, y: Condition, z: Condition)
    requires Comparison(y) && Comparison(z)
    ensures Meaning(env, WithOrChild(y, z)) == Some(Disjunction(Truthful(env, y), Truthful(env, z)))
  {
    var z' := z.(logic := LogicOr);
    hide Items, TermLike, ValueOf, Meaning;
    ComparisonMeans(env, z');
    ItemsOfOne(env, z');
    var a, b := Item(Unset, Truthful(env, y)), Item(LogicOr, Truthful(env, z));
    ValueOfTwo(a, b);
    assert [a] + [b] == [a, b];
    MeaningMeans(env, WithOrChild(y, z));
  }

  lemma BareOrMeaning(env: Env, x: Condition, y: Condition, z: Condition)
    requires Comparison(x) && Comparison(y) && Comparison(z)
    ensures Meaning(env, BareOrBesideAnd(x, y, z))
         == Some(Conjunction(Truthful(env, x), Disjunction(Truthful(env, y), Truthful(env, z))))
  {
    var y' := WithOrChild(y, z);
    var g := BareOrBesideAnd(x, y, z);
    var a, b := Item(x.logic, Truthful(env, x)), Item(LogicAnd, Disjunction(Truthful(env, y), Truthful(env, z)));
    ComparisonMeans(env, x);
    WithOrChildMeans(env, y, z);
    ItemsOfOne(env, y');
    hide Meaning, TermLike, ValueOf;
    assert [x, y'][1..] == [y'];
    assert Items(env, g.children) == [a, b];
    assert [] + [a, b] == [a, b];
    ValueOfTwo(a, b);
    MeaningMeans(env, g);
  }

  /** A condition with a child joined by OR prints no parentheses. Beside an AND its SQL reads as
      `(x AND y) OR z`, while the tree means `x AND (y OR z)`: the same exactly when `z` is at most as true
      as `x`. */
  lemma BareOrBesideAndIsMisread(env: Env, x: Condition, y: Condition, z: Condition)
    requires Comparison(x) && Comparison(y) && Comparison(z)
    ensures var t := BareOrBesideAnd(x, y, z);
      && SqlOf(t).Sql? && Meaning(env, t).Some? && !Guarded(t)
      && (ReadExpr(env, SqlOf(t).tokens, SqlOf(t).args) == Read(Meaning(env, t).value, [], [])
          <==> AtMost(Truthful(env, z), Truthful(env, x)))
  {
    hide SqlOf, Meaning, ReadExpr, TermLike, ExprLike, FactorLike, Guarded;
    ComparisonMeans(env, x);
    ComparisonMeans(env, y);
    ComparisonMeans(env, z);
    BareOrText(x, y, z);
    BareOrMeaning(env, x, y, z);
    BareOrIsUnguarded(x, y, z);
    var a, b, c := Truthful(env, x), Truthful(env, y), Truthful(env, z);
    var p, q, r := SqlOf(x), SqlOf(y), SqlOf(z);
    assert p.tokens == Text(x) && q.tokens == Text(y) && r.tokens == Text(z);
    AndJoin(env, p.tokens, p.args, a, q.tokens, q.args, b);
    TermIsExpr(env, p.tokens + ([And] + q.tokens), p.args + q.args, Conjunction(a, b));
    TermIsExpr(env, r.tokens, r.args, c);
    var ts, args := (p.tokens + ([And] + q.tokens)) + ([Or] + r.tokens), (p.args + q.args) + r.args;
    OrJoin(env, p.tokens + ([And] + q.tokens), p.args + q.args, Conjunction(a, b), r.tokens, r.args, c);
    ParenthesesAreFactor(env, ts, args, Disjunction(Conjunction(a, b), c));
    FactorIsTerm(env, [Open] + ts + [Close], args, Disjunction(Conjunction(a, b), c));
    TermIsExpr(env, [Open] + ts + [Close], args, Disjunction(Conjunction(a, b), c));
    WholeReads(env, [Open] + ts + [Close], args, Disjunction(Conjunction(a, b), c));
  }

  lemma BareOrIsUnguarded(x: Condition, y: Condition, z: Condition)
    requires Comparison(x) && Comparison(y) && Comparison(z)
    ensures !Guarded(BareOrBesideAnd(x, y, z))
  {
    var z' := z.(logic := LogicOr);
    var y' := WithOrChild(y, z);
    assert [x, y'][1..] == [y'] && [z'][1..] == [];
    assert Speaks(x) && Speaks(z');
    JoinsStep([z'], false);
    NothingJoins();
    assert BareOr(y');
    WithOrChildText(y, z);
    assert Speaks(y');
    assert !GuardedList(true, BareOr(x), [y']);
  }
}
