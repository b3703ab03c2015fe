/** Placeholders and arguments of the builder's SQL, and its errors. */
module ClauseArgs {
  import opened Options
  import opened ClauseBuilder

  /** A predicate with the arguments its placeholders take. */
  datatype Bound = Bound(field: string, operator: Operator, args: seq<Value>)

  /** Fills the placeholders from left to right; nothing when arguments run out or are left over. */
  function Bind(ts: seq<Token>, args: seq<Value>): Option<seq<Bound>> {
    if ts == [] then (if args == [] then Some([]) else None)
    else match ts[0]
      case Predicate(field, operator, n) =>
        if |args| < n then None
        else
          (match Bind(ts[1..], args[n..])
           case None => None
           case Some(more) => Some([Bound(field, operator, args[..n])] + more))
      case _ => Bind(ts[1..], args)
  }

  function Placeholders(ts: seq<Token>): nat {
    if ts == [] then 0 else (if ts[0].Predicate? then ts[0].placeholders else 0) + Placeholders(ts[1..])
  }

  /** The predicates of a tree from left to right, with the values written there. */
  function Leaves(c: Condition): seq<Bound>
    decreases c, 1
  {
    (match BuildSingleCondition(c)
     case Failed(_) => []
     case Sql(ts, args) => if ts == [] then [] else [Bound(c.field, c.operator, args)]) + LeavesOfAll(c.children)
  }

  function LeavesOfAll(cs: seq<Condition>): seq<Bound>
    decreases cs, 0
  {
    if cs == [] then [] else Leaves(cs[0]) + LeavesOfAll(cs[1..])
  }

  lemma {:induction false} BindJoin(p: seq<Token>, a: seq<Value>, q: seq<Token>, b: seq<Value>)
    requires Bind(p, a).Some? && Bind(q, b).Some?
    ensures Bind(p + q, a + b) == Some(Bind(p, a).value + Bind(q, b).value)
    decreases |p|
  {
    if p == [] {
      assert p + q == q && a + b == b;
      assert [] + Bind(q, b).value == Bind(q, b).value;
    } else {
      assert (p + q)[1..] == p[1..] + q;
      if p[0].Predicate? {
        var n := p[0].placeholders;
        assert (a + b)[n..] == a[n..] + b && (a + b)[..n] == a[..n];
        BindJoin(p[1..], a[n..], q, b);
        var first := [Bound(p[0].field, p[0].operator, a[..n])];
        assert first + (Bind(p[1..], a[n..]).value + Bind(q, b).value)
            == first + Bind(p[1..], a[n..]).value + Bind(q, b).value;
      } else {
        BindJoin(p[1..], a, q, b);
      }
    }
  }

  lemma {:induction false} BindCounts(ts: seq<Token>, args: seq<Value>)
    requires Bind(ts, args).Some?
    ensures Placeholders(ts) == |args|
    decreases |ts|
  {
    if ts != [] {
      BindCounts(ts[1..], if ts[0].Predicate? then args[ts[0].placeholders..] else args);
    }
  }

  lemma NoPlaceholder(t: Token)
    requires !t.Predicate?
    ensures Bind([t], []) == Some([])
  {}

  ghost predicate Binds(g: Gathered, leaves: seq<Bound>) {
    g.Gathered? ==> Bind(g.tokens, g.args) == Some(leaves) && (g.tokens == [] ==> leaves == [])
  }

  lemma JoinBinds(g: Gathered, logic: Logic, part: Built, leaves: seq<Bound>, more: seq<Bound>)
    requires g.Gathered? && Binds(g, leaves)
    requires part.Sql? ==> Bind(part.tokens, part.args) == Some(more) && (part.tokens == [] ==> more == [])
    ensures Binds(Join(g, logic, part), leaves + more)
  {
    hide Bind;
    if part.Sql? && part.tokens != [] && g.tokens != [] {
      NoPlaceholder(LogicToken(logic));
      BindJoin([LogicToken(logic)], [], part.tokens, part.args);
      BindJoin(g.tokens, g.args, [LogicToken(logic)] + part.tokens, [] + part.args);
      assert [] + part.args == part.args && [] + more == more;
    } else if part.Sql? && part.tokens != [] {
      EmptyBinds(g.args, leaves);
      assert [] + part.args == part.args && [] + more == more;
    } else if part.Sql? {
      assert leaves + [] == leaves;
    }
  }

  lemma EmptyBinds(args: seq<Value>, leaves: seq<Bound>)
    requires Bind([], args) == Some(leaves)
    ensures args == [] && leaves == []
  {}

  lemma {:induction false} GatherBinds(g: Gathered, cs: seq<Condition>, leaves: seq<Bound>)
    requires Binds(g, leaves)
    ensures Binds(Gather(g, cs), leaves + LeavesOfAll(cs))
    decreases cs, 0
  {
    hide Bind, SqlOf, Leaves;
    if g.Broken? || cs == [] {
      assert leaves + [] == leaves;
    } else {
      PlaceholdersBind(cs[0]);
      JoinBinds(g, cs[0].logic, SqlOf(cs[0]), leaves, Leaves(cs[0]));
      GatherBinds(Join(g, cs[0].logic, SqlOf(cs[0])), cs[1..], leaves + Leaves(cs[0]));
      assert leaves + Leaves(cs[0]) + LeavesOfAll(cs[1..]) == leaves + LeavesOfAll(cs);
    }
  }

  lemma OwnBinds(c: Condition)
    requires BuildSingleCondition(c).Sql?
    ensures var own := BuildSingleCondition(c);
      Binds(Start(own), if own.tokens == [] then [] else [Bound(c.field, c.operator, own.args)])
  {
    var own := BuildSingleCondition(c);
    if own.tokens != [] {
      assert own.tokens[0] == Predicate(c.field, c.operator, |own.args|);
      assert own.args[..|own.args|] == own.args;
      assert [Bound(c.field, c.operator, own.args)] + [] == [Bound(c.field, c.operator, own.args)];
      assert own.tokens[1..] == [] && own.args[|own.args|..] == [];
      assert Bind([], []) == Some([]);
    }
  }

  /** The placeholders of the SQL take the values of the tree's predicates in the order the predicates
      stand in the tree, one for each, with none missing and none left over. This holds for every tree. */
  lemma {:induction false} PlaceholdersBind(c: Condition)
    ensures SqlOf(c).Sql? ==>
      && Bind(SqlOf(c).tokens, SqlOf(c).args) == Some(Leaves(c))
      && (SqlOf(c).tokens == [] ==> Leaves(c) == [])
    decreases c, 1
  {
    var own := BuildSingleCondition(c);
    if own.Sql? {
      hide Bind;
      OwnBinds(c);
      var leaves := if own.tokens == [] then [] else [Bound(c.field, c.operator, own.args)];
      GatherBinds(Start(own), c.children, leaves);
      var g := Gather(Start(own), c.children);
      if g.Gathered? && g.tokens != [] {
        ParenthesesBind(g.tokens, g.args);
      } else if g.Gathered? {
        EmptyBinds(g.args, Leaves(c));
      }
    } else {
      BrokenStays(own.error, c.children);
    }
  }

  lemma ParenthesesBind(ts: seq<Token>, args: seq<Value>)
    requires Bind(ts, args).Some?
    ensures Bind([Open] + ts + [Close], args) == Bind(ts, args)
  {
    hide Bind;
    var v := Bind(ts, args).value;
    NoPlaceholder(Open);
    NoPlaceholder(Close);
    BindJoin([Open], [], ts, args);
    BindJoin([Open] + ts, [] + args, [Close], []);
    assert [] + args + [] == args && [] + v + [] == v;
  }

  lemma PlaceholdersAreCounted(c: Condition)
    requires SqlOf(c).Sql?
    ensures Placeholders(SqlOf(c).tokens) == |SqlOf(c).args|
  {
    PlaceholdersBind(c);
    BindCounts(SqlOf(c).tokens, SqlOf(c).args);
  }

  /** Whether anything in the tree says something: a predicate, and not a membership in an empty list. */
  predicate Speaks(c: Condition) {
    Leaves(c) != []
  }

  /** A tree has a text exactly when something in it says something. */
  lemma {:induction false} SpeaksExactlyWhenPrinted(c: Condition)
    requires SqlOf(c).Sql?
    ensures Speaks(c) <==> SqlOf(c).tokens != []
    decreases c, 1
  {
    var own := BuildSingleCondition(c);
    if own.Sql? {
      GatherSpeaks(Start(own), c.children);
    } else {
      BrokenStays(own.error, c.children);
    }
  }

  lemma {:induction false} GatherSpeaks(g: Gathered, cs: seq<Condition>)
    requires g.Gathered? && Gather(g, cs).Gathered?
    ensures Gather(g, cs).tokens != [] <==> g.tokens != [] || LeavesOfAll(cs) != []
    decreases cs, 0
  {
    hide SqlOf, Leaves;
    if cs != [] {
      var g' := Join(g, cs[0].logic, SqlOf(cs[0]));
      if g'.Broken? {
        BrokenStays(g'.error, cs[1..]);
      } else {
        SpeaksExactlyWhenPrinted(cs[0]);
        GatherSpeaks(g', cs[1..]);
      }
    }
  }

  // ----- Errors -----

  /** A field whose value does not suit its operator. */
  predicate Malformed(c: Condition) {
    c.field != "" &&
    (c.operator.Unsupported?
     || ((c.operator.In? || c.operator.NotIn?) && !c.value.List?)
     || (c.operator.Between? && (!c.value.List? || |c.value.values| != 2)))
  }

  predicate HasMalformed(c: Condition)
    decreases c
  {
    Malformed(c) || exists i :: 0 <= i < |c.children| && HasMalformed(c.children[i])
  }

  /** Building fails exactly when some field in the tree has a value that does not suit its operator. */
  lemma {:induction false} FailsExactlyOnMalformed(c: Condition)
    ensures SqlOf(c).Failed? <==> HasMalformed(c)
    decreases c, 1
  {
    var own := BuildSingleCondition(c);
    if own.Failed? {
      BrokenStays(own.error, c.children);
    } else {
      GatherFails(Start(own), c.children);
    }
  }

  lemma {:induction false} GatherFails(g: Gathered, cs: seq<Condition>)
    requires g.Gathered?
    ensures Gather(g, cs).Broken? <==> exists i :: 0 <= i < |cs| && HasMalformed(cs[i])
    decreases cs, 0
  {
    hide SqlOf, HasMalformed;
    if cs != [] {
      FailsExactlyOnMalformed(cs[0]);
      assert forall i :: 0 < i < |cs| ==> cs[i] == cs[1..][i - 1];
      var g' := Join(g, cs[0].logic, SqlOf(cs[0]));
      if g'.Gathered? {
        GatherFails(g', cs[1..]);
      } else {
        BrokenStays(g'.error, cs[1..]);
      }
    }
  }
}
