/** The SQL of the builder keeps the meaning of the tree. */
module ClauseTheorem {
  import opened Options
  import opened ClauseBuilder
  import opened ClauseMeaning
  import opened Formulas
  import opened ClauseArgs

  // ----- The text of a list of conditions -----

  /** The text of the children that print something, each behind its operator. */
  function Tail(cs: seq<Condition>): seq<Token> {
    if cs == [] then []
    else match SqlOf(cs[0])
      case Failed(_) => []
      case Sql(ts, _) => (if ts == [] then [] else [LogicToken(cs[0].logic)] + ts) + Tail(cs[1..])
  }

  function TailArgs(cs: seq<Condition>): seq<Value> {
    if cs == [] then []
    else match SqlOf(cs[0])
      case Failed(_) => []
      case Sql(ts, args) => (if ts == [] then [] else args) + TailArgs(cs[1..])
  }

  predicate AllBuilt(cs: seq<Condition>) {
    forall i :: 0 <= i < |cs| ==> SqlOf(cs[i]).Sql?
  }

  predicate Joins(cs: seq<Condition>, or: bool) {
    exists i :: 0 <= i < |cs| && Speaks(cs[i]) && cs[i].logic.LogicOr? == or
  }

  lemma JoinsStep(cs: seq<Condition>, or: bool)
    requires cs != []
    ensures Joins(cs, or) <==> (Speaks(cs[0]) && cs[0].logic.LogicOr? == or) || Joins(cs[1..], or)
  {
    hide Speaks;
    if Joins(cs, or) {
      var i :| 0 <= i < |cs| && Speaks(cs[i]) && cs[i].logic.LogicOr? == or;
      if i > 0 {
        assert cs[1..][i - 1] == cs[i];
      }
    }
    if Joins(cs[1..], or) {
      var i :| 0 <= i < |cs[1..]| && Speaks(cs[1..][i]) && cs[1..][i].logic.LogicOr? == or;
      assert cs[i + 1] == cs[1..][i];
    }
  }

  /** Once there is a first part, the loop adds the rest behind it. */
  lemma {:induction false} GatherIsTail(g: Gathered, cs: seq<Condition>)
    requires g.Gathered? && g.tokens != [] && AllBuilt(cs)
    ensures Gather(g, cs) == Gathered(g.tokens + Tail(cs), g.args + TailArgs(cs),
                                      g.hasAnd || Joins(cs, false), g.hasOr || Joins(cs, true))
    decreases cs
  {
    hide SqlOf, Joins, Speaks;
    if cs == [] {
      NothingJoins();
      assert g.tokens + [] == g.tokens && g.args + [] == g.args;
    } else {
      var part := SqlOf(cs[0]);
      JoinsStep(cs, false);
      JoinsStep(cs, true);
      SpeaksMeans(cs[0]);
      var g' := Join(g, cs[0].logic, part);
      GatherIsTail(g', cs[1..]);
      if part.tokens == [] {
        assert [] + Tail(cs[1..]) == Tail(cs[1..]) && [] + TailArgs(cs[1..]) == TailArgs(cs[1..]);
      } else {
        Regroup(g.tokens, [LogicToken(cs[0].logic)] + part.tokens, Tail(cs[1..]));
        Regroup(g.args, part.args, TailArgs(cs[1..]));
      }
    }
  }

  lemma NothingJoins()
    ensures !Joins([], false) && !Joins([], true)
  {}

  lemma SpeaksMeans(c: Condition)
    requires SqlOf(c).Sql?
    ensures Speaks(c) <==> SqlOf(c).tokens != []
  {
    SpeaksExactlyWhenPrinted(c);
  }

  lemma Regroup<T>(a: seq<T>, b: seq<T>, c: seq<T>)
    ensures (a + b) + c == a + (b + c)
  {}

  /** A failing child fails the whole. */
  lemma {:induction false} BuiltOrBroken(g: Gathered, cs: seq<Condition>)
    requires Gather(g, cs).Gathered?
    ensures g.Gathered? && AllBuilt(cs)
    decreases cs
  {
    hide SqlOf;
    if g.Gathered? && cs != [] {
      BuiltOrBroken(Join(g, cs[0].logic, SqlOf(cs[0])), cs[1..]);
    }
  }

  // ----- Trees that keep their meaning -----

  /** The condition has no field, or asks for membership in an empty list. */
  predicate OwnIsEmpty(c: Condition) {
    c.field == "" || ((c.operator.In? || c.operator.NotIn?) && c.value == List([]))
  }

  /** The condition prints parts joined by OR only, without parentheses around them. */
  predicate BareOr(c: Condition) {
    c.field != "" && BareOrList(!OwnIsEmpty(c), false, c.children)
  }

  /** As `BareOr`, for a list of children behind other parts: `some` says that there are parts, `bare` that
      they are one bare OR. */
  predicate BareOrList(some: bool, bare: bool, cs: seq<Condition>)
    decreases cs
  {
    if cs == [] then some && bare
    else if !Speaks(cs[0]) then BareOrList(some, bare, cs[1..])
    else if !some then BareOrList(true, BareOr(cs[0]), cs[1..])
    else cs[0].logic.LogicOr? && !Joins(cs[1..], false)
  }

  /** No bare OR stands beside an AND. */
  predicate Guarded(c: Condition) {
    GuardedList(!OwnIsEmpty(c), false, c.children)
  }

  predicate GuardedList(some: bool, bare: bool, cs: seq<Condition>)
    decreases cs
  {
    cs == [] ||
    (Guarded(cs[0]) &&
     (if !Speaks(cs[0]) then GuardedList(some, bare, cs[1..])
      else
        && (some && !cs[0].logic.LogicOr? ==> !bare && !BareOr(cs[0]))
        && GuardedList(true, BareOr(cs[0]), cs[1..])))
  }

  // ----- Merging items -----

  lemma {:induction false} MergeAnd(l: Logic, v: Truth, m: Logic, w: Truth, items: seq<Item>)
    requires !m.LogicOr?
    ensures ValueOf([Item(l, v)] + ([Item(m, w)] + items)) == ValueOf([Item(Unset, Conjunction(v, w))] + items)
  {
    var all, merged := [Item(l, v)] + ([Item(m, w)] + items), [Item(Unset, Conjunction(v, w))] + items;
    var inner := [Item(m, w)] + items;
    assert all[1..] == inner;
    assert inner[1..] == items == merged[1..];
    assert FirstRun(all) == Conjunction(v, FirstRun(inner)) && AfterRun(all) == AfterRun(inner);
    if items == [] || items[0].logic.LogicOr? {
      assert FirstRun(inner) == w && AfterRun(inner) == AfterRun(merged) == items;
    } else {
      assert FirstRun(inner) == Conjunction(w, FirstRun(items)) && AfterRun(inner) == AfterRun(items);
      assert FirstRun(merged) == Conjunction(Conjunction(v, w), FirstRun(items)) && AfterRun(merged) == AfterRun(items);
    }
  }

  lemma SplitOr(l: Logic, v: Truth, m: Logic, w: Truth, items: seq<Item>)
    requires m.LogicOr?
    ensures ValueOf([Item(l, v)] + ([Item(m, w)] + items)) == Disjunction(v, ValueOf([Item(Unset, w)] + items))
  {
    var all, inner := [Item(l, v)] + ([Item(m, w)] + items), [Item(m, w)] + items;
    assert all[1..] == inner;
    FirstLogicIsIgnored(m, Unset, w, items);
  }

  lemma {:induction false} FirstLogicIsIgnored(l: Logic, m: Logic, v: Truth, items: seq<Item>)
    ensures ValueOf([Item(l, v)] + items) == ValueOf([Item(m, v)] + items)
  {
    assert ([Item(l, v)] + items)[1..] == items == ([Item(m, v)] + items)[1..];
  }

  // ----- Reading lists -----

  /** The text of a part reads as its value: a bare OR as a search condition, anything else as a term. */
  ghost predicate Reads(env: Env, ts: seq<Token>, args: seq<Value>, v: Truth, bare: bool) {
    ExprLike(env, ts, args, v) && (bare || TermLike(env, ts, args, v))
  }

  ghost predicate ChildReads(env: Env, c: Condition) {
    match SqlOf(c)
    case Failed(_) => false
    case Sql(ts, args) =>
      if ts == [] then Meaning(env, c).None?
      else Meaning(env, c).Some? && Reads(env, ts, args, Meaning(env, c).value, BareOr(c))
  }

  ghost predicate AllRead(env: Env, cs: seq<Condition>) {
    forall i :: 0 <= i < |cs| ==> ChildReads(env, cs[i])
  }

  /** A part and the children behind it. */
  ghost predicate ListReads(env: Env, p: seq<Token>, a: seq<Value>, v: Truth, bare: bool, cs: seq<Condition>) {
    Reads(env, p + Tail(cs), a + TailArgs(cs), ValueOf([Item(Unset, v)] + Items(env, cs)), BareOrBehind(bare, cs))
  }

  /** Whether a part and the children behind it must not be read as a term. */
  predicate BareOrBehind(bare: bool, cs: seq<Condition>) {
    bare || Joins(cs, true)
  }

  lemma ListWithoutPrint(env: Env, p: seq<Token>, a: seq<Value>, v: Truth, bare: bool, cs: seq<Condition>)
    requires cs != [] && ChildReads(env, cs[0]) && !Speaks(cs[0])
    requires ListReads(env, p, a, v, bare, cs[1..])
    ensures ListReads(env, p, a, v, bare, cs)
  {
    SpeaksMeans(cs[0]);
    JoinsStep(cs, true);
    hide Reads, SqlOf, Meaning, Joins;
    assert [] + Tail(cs[1..]) == Tail(cs[1..]) && [] + TailArgs(cs[1..]) == TailArgs(cs[1..]);
    assert [] + Items(env, cs[1..]) == Items(env, cs[1..]);
  }

  lemma {:induction false} ListIsRead(env: Env, p: seq<Token>, a: seq<Value>, v: Truth, bare: bool, cs: seq<Condition>)
    requires Reads(env, p, a, v, bare) && AllRead(env, cs) && GuardedList(true, bare, cs)
    ensures ListReads(env, p, a, v, bare, cs)
    decreases cs
  {
    hide *;
    if cs == [] {
      NothingBehind(env, p, a, v, bare);
    } else {
      FirstIsRead(env, cs);
      GuardedStep(bare, cs);
      if !Speaks(cs[0]) {
        ListIsRead(env, p, a, v, bare, cs[1..]);
        ListWithoutPrint(env, p, a, v, bare, cs);
      } else {
        var q, b, w := SqlOf(cs[0]).tokens, SqlOf(cs[0]).args, Meaning(env, cs[0]).value;
        if cs[0].logic.LogicOr? {
          ListIsRead(env, q, b, w, BareOr(cs[0]), cs[1..]);
          OrPart(env, p, a, v, bare, cs, q, b, w);
        } else {
          AndPart(env, p, a, v, cs, q, b, w);
          ListIsRead(env, p + ([And] + q), a + b, Conjunction(v, w), false, cs[1..]);
          AndPartMerged(env, p, a, v, bare, cs, q, b, w);
        }
      }
    }
  }

  lemma NothingBehind(env: Env, p: seq<Token>, a: seq<Value>, v: Truth, bare: bool)
    requires Reads(env, p, a, v, bare)
    ensures ListReads(env, p, a, v, bare, [])
  {
    hide Reads;
    NothingJoins();
    assert p + [] == p && a + [] == a && [Item(Unset, v)] + [] == [Item(Unset, v)];
    assert ValueOf([Item(Unset, v)]) == v;
  }

  lemma FirstIsRead(env: Env, cs: seq<Condition>)
    requires cs != [] && AllRead(env, cs)
    ensures ChildReads(env, cs[0]) && AllRead(env, cs[1..])
    ensures Speaks(cs[0]) ==>
      && SqlOf(cs[0]).Sql? && Meaning(env, cs[0]).Some?
      && Reads(env, SqlOf(cs[0]).tokens, SqlOf(cs[0]).args, Meaning(env, cs[0]).value, BareOr(cs[0]))
  {
    SpeaksMeans(cs[0]);
    hide SqlOf, Meaning, Reads, BareOr, Speaks;
  }

  lemma GuardedStep(bare: bool, cs: seq<Condition>)
    requires cs != [] && GuardedList(true, bare, cs)
    ensures if !Speaks(cs[0]) then GuardedList(true, bare, cs[1..])
      else GuardedList(true, BareOr(cs[0]), cs[1..]) && (!cs[0].logic.LogicOr? ==> !bare && !BareOr(cs[0]))
  {
    hide Speaks, BareOr;
  }

  lemma TailStep(env: Env, cs: seq<Condition>)
    requires cs != [] && Speaks(cs[0]) && ChildReads(env, cs[0])
    ensures SqlOf(cs[0]).Sql? && Meaning(env, cs[0]).Some?
    ensures Tail(cs) == [LogicToken(cs[0].logic)] + SqlOf(cs[0]).tokens + Tail(cs[1..])
    ensures TailArgs(cs) == SqlOf(cs[0]).args + TailArgs(cs[1..])
    ensures Items(env, cs) == [Item(cs[0].logic, Meaning(env, cs[0]).value)] + Items(env, cs[1..])
  {
    SpeaksMeans(cs[0]);
    hide SqlOf, Meaning, Reads, Speaks;
  }

  lemma OrPart(env: Env, p: seq<Token>, a: seq<Value>, v: Truth, bare: bool, cs: seq<Condition>,
               q: seq<Token>, b: seq<Value>, w: Truth)
    requires cs != [] && Speaks(cs[0]) && ChildReads(env, cs[0]) && cs[0].logic.LogicOr?
    requires q == SqlOf(cs[0]).tokens && b == SqlOf(cs[0]).args && Meaning(env, cs[0]) == Some(w)
    requires Reads(env, p, a, v, bare) && ListReads(env, q, b, w, BareOr(cs[0]), cs[1..])
    ensures ListReads(env, p, a, v, bare, cs)
  {
    hide SqlOf, Meaning, ExprLike, TermLike, Joins, ValueOf;
    var rest := cs[1..];
    TailStep(env, cs);
    JoinsStep(cs, true);
    OrJoin(env, p, a, v, q + Tail(rest), b + TailArgs(rest), ValueOf([Item(Unset, w)] + Items(env, rest)));
    SplitOr(Unset, v, cs[0].logic, w, Items(env, rest));
    assert p + Tail(cs) == p + ([Or] + (q + Tail(rest)));
    assert a + TailArgs(cs) == a + (b + TailArgs(rest));
  }

  lemma AndPart(env: Env, p: seq<Token>, a: seq<Value>, v: Truth, cs: seq<Condition>,
                q: seq<Token>, b: seq<Value>, w: Truth)
    requires Reads(env, p, a, v, false) && Reads(env, q, b, w, false)
    ensures Reads(env, p + ([And] + q), a + b, Conjunction(v, w), false)
  {
    hide TermLike, ExprLike;
    AndJoin(env, p, a, v, q, b, w);
    TermIsExpr(env, p + ([And] + q), a + b, Conjunction(v, w));
  }

  lemma AndPartMerged(env: Env, p: seq<Token>, a: seq<Value>, v: Truth, bare: bool, cs: seq<Condition>,
                      q: seq<Token>, b: seq<Value>, w: Truth)
    requires cs != [] && Speaks(cs[0]) && ChildReads(env, cs[0]) && !cs[0].logic.LogicOr? && !bare
    requires q == SqlOf(cs[0]).tokens && b == SqlOf(cs[0]).args && Meaning(env, cs[0]) == Some(w)
    requires ListReads(env, p + ([And] + q), a + b, Conjunction(v, w), false, cs[1..])
    ensures ListReads(env, p, a, v, bare, cs)
  {
    hide SqlOf, Meaning, Reads, Joins, ValueOf;
    var rest := cs[1..];
    TailStep(env, cs);
    JoinsStep(cs, true);
    MergeAnd(Unset, v, cs[0].logic, w, Items(env, rest));
    assert p + Tail(cs) == p + ([And] + q) + Tail(rest);
    assert a + TailArgs(cs) == a + b + TailArgs(rest);
  }

  // ----- Reading a node -----

  /** What the loop has gathered, if anything, reads as the items; `bare` when it is a bare OR. */
  ghost predicate GatheredReads(env: Env, g: Gathered, items: seq<Item>, bare: bool) {
    && g.Gathered?
    && (g.tokens == [] <==> items == [])
    && (items != [] ==> Reads(env, g.tokens, g.args, ValueOf(items), bare || (g.hasAnd && g.hasOr)))
  }

  lemma {:induction false} BareOrIs(bare: bool, cs: seq<Condition>)
    ensures BareOrList(true, bare, cs) <==>
      if !Joins(cs, true) && !Joins(cs, false) then bare else Joins(cs, true) && !Joins(cs, false)
    decreases cs
  {
    hide Joins, Speaks;
    if cs == [] {
      NothingJoins();
    } else {
      JoinsStep(cs, true);
      JoinsStep(cs, false);
      if !Speaks(cs[0]) {
        BareOrIs(bare, cs[1..]);
      }
    }
  }

  lemma {:induction false} BareIsFollowedByOr(cs: seq<Condition>)
    requires GuardedList(true, true, cs) && Joins(cs, false)
    ensures Joins(cs, true)
    decreases cs
  {
    hide Joins, Speaks, Guarded;
    if cs == [] {
      NothingJoins();
    } else {
      JoinsStep(cs, true);
      JoinsStep(cs, false);
      if !Speaks(cs[0]) {
        BareIsFollowedByOr(cs[1..]);
      }
    }
  }

  /** A first part with the children behind it. */
  lemma GatherFromPart(env: Env, g: Gathered, v: Truth, bare: bool, cs: seq<Condition>)
    requires g.Gathered? && g.tokens != [] && !g.hasAnd && !g.hasOr && Reads(env, g.tokens, g.args, v, bare)
    requires AllBuilt(cs) && AllRead(env, cs) && GuardedList(true, bare, cs)
    ensures GatheredReads(env, Gather(g, cs), [Item(Unset, v)] + Items(env, cs), BareOrList(true, bare, cs))
  {
    hide Joins, AllBuilt, AllRead, GuardedList, ExprLike, TermLike, Tail, TailArgs, Items, Gather, ValueOf, BareOrList;
    GatherIsTail(g, cs);
    ListIsRead(env, g.tokens, g.args, v, bare, cs);
    BareOrIs(bare, cs);
    if bare && Joins(cs, false) {
      BareIsFollowedByOr(cs);
    }
  }

  lemma FirstIsJoined(logic: Logic, part: Built)
    requires part.Sql? && part.tokens != []
    ensures Join(Start(NOTHING), logic, part) == Gathered(part.tokens, part.args, false, false)
  {
    assert [] + part.args == part.args;
  }

  lemma GatherStep(g: Gathered, cs: seq<Condition>)
    requires g.Gathered? && cs != [] && SqlOf(cs[0]).Sql?
    ensures Gather(g, cs) == Gather(Join(g, cs[0].logic, SqlOf(cs[0])), cs[1..])
    ensures !Speaks(cs[0]) ==> Join(g, cs[0].logic, SqlOf(cs[0])) == g
  {
    SpeaksMeans(cs[0]);
    hide SqlOf, Speaks;
  }

  lemma ItemsWithout(env: Env, cs: seq<Condition>)
    requires cs != [] && ChildReads(env, cs[0]) && !Speaks(cs[0])
    ensures Items(env, cs) == Items(env, cs[1..])
  {
    SpeaksMeans(cs[0]);
    hide SqlOf, Meaning, Reads, Speaks;
    assert [] + Items(env, cs[1..]) == Items(env, cs[1..]);
  }

  lemma GuardedFromNothing(bare: bool, cs: seq<Condition>)
    requires cs != [] && GuardedList(false, bare, cs)
    ensures if !Speaks(cs[0]) then GuardedList(false, bare, cs[1..]) && BareOrList(false, bare, cs) == BareOrList(false, bare, cs[1..])
      else GuardedList(true, BareOr(cs[0]), cs[1..]) && BareOrList(false, bare, cs) == BareOrList(true, BareOr(cs[0]), cs[1..])
  {
    hide Speaks, BareOr, Guarded;
  }

  lemma AllBuiltStep(cs: seq<Condition>)
    requires cs != [] && AllBuilt(cs)
    ensures SqlOf(cs[0]).Sql? && AllBuilt(cs[1..])
  {
    hide SqlOf;
  }

  lemma NothingGatheredReads(env: Env, bare: bool)
    ensures GatheredReads(env, Gather(Start(NOTHING), []), Items(env, []), BareOrList(false, bare, []))
  {}

  lemma {:induction false} GatherFromNothing(env: Env, cs: seq<Condition>, bare: bool)
    requires AllBuilt(cs) && AllRead(env, cs) && GuardedList(false, bare, cs)
    ensures GatheredReads(env, Gather(Start(NOTHING), cs), Items(env, cs), BareOrList(false, bare, cs))
    decreases cs
  {
    hide *;
    if cs == [] {
      NothingGatheredReads(env, bare);
    } else {
      AllBuiltStep(cs);
      FirstIsRead(env, cs);
      GuardedFromNothing(bare, cs);
      StartOfNothing();
      GatherStep(Start(NOTHING), cs);
      if !Speaks(cs[0]) {
        GatherFromNothing(env, cs[1..], bare);
        ItemsWithout(env, cs);
      } else {
        var part, w := SqlOf(cs[0]), Meaning(env, cs[0]).value;
        SpeaksMeans(cs[0]);
        FirstIsJoined(cs[0].logic, part);
        GatherFromPart(env, Gathered(part.tokens, part.args, false, false), w, BareOr(cs[0]), cs[1..]);
        TailStep(env, cs);
        FirstLogicIsIgnored(cs[0].logic, Unset, w, Items(env, cs[1..]));
        SameValue(env, Gather(Start(NOTHING), cs), [Item(Unset, w)] + Items(env, cs[1..]), Items(env, cs), BareOrList(false, bare, cs));
      }
    }
  }

  lemma StartOfNothing()
    ensures Start(NOTHING) == Gathered([], [], false, false)
  {}

  lemma SameValue(env: Env, g: Gathered, items: seq<Item>, items': seq<Item>, bare: bool)
    requires GatheredReads(env, g, items, bare) && items != [] && items' != [] && ValueOf(items) == ValueOf(items')
    ensures GatheredReads(env, g, items', bare)
  {
    hide Reads, ValueOf;
  }

  lemma OwnIsRead(env: Env, c: Condition)
    requires BuildSingleCondition(c).Sql?
    ensures var own := BuildSingleCondition(c);
      if OwnIsEmpty(c) then Own(env, c).None?
      else own.tokens != [] && Own(env, c).Some? && Reads(env, own.tokens, own.args, Own(env, c).value, false)
  {
    hide FactorLike, TermLike, ExprLike;
    if !OwnIsEmpty(c) {
      var args := BuildSingleCondition(c).args;
      PredicateIsFactor(env, c.field, c.operator, args);
      var ts, v := [Predicate(c.field, c.operator, |args|)], env(Bound(c.field, c.operator, args));
      FactorIsTerm(env, ts, args, v);
      TermIsExpr(env, ts, args, v);
    }
  }

  lemma BareOrMeans(c: Condition)
    ensures BareOr(c) <==> c.field != "" && BareOrList(!OwnIsEmpty(c), false, c.children)
  {}

  lemma SqlMeans(c: Condition)
    ensures var g := Gather(Start(BuildSingleCondition(c)), c.children);
      var grouped := (c.field == "" && c.children != []) || (g.Gathered? && g.hasAnd && g.hasOr);
      g.Gathered? ==>
        && (g.tokens == [] ==> SqlOf(c) == NOTHING)
        && (g.tokens != [] ==> SqlOf(c) == Sql(if grouped then [Open] + g.tokens + [Close] else g.tokens, g.args))
  {
    hide Gather;
  }

  lemma MeaningMeans(env: Env, c: Condition)
    ensures var own := Own(env, c);
      var items := (if own.Some? then [Item(Unset, own.value)] else []) + Items(env, c.children);
      Meaning(env, c) == if items == [] then None else Some(ValueOf(items))
    ensures c.children == [] ==> Items(env, c.children) == []
  {
    hide ValueOf;
  }

  /** A condition reads as it means, given that its children do. */
  lemma NodeIsRead(env: Env, c: Condition)
    requires SqlOf(c).Sql? && Guarded(c) && AllBuilt(c.children) && AllRead(env, c.children)
    requires BuildSingleCondition(c).Sql?
    ensures ChildReads(env, c)
  {
    var own := BuildSingleCondition(c);
    var g := Gather(Start(own), c.children);
    hide AllBuilt, AllRead, ExprLike, TermLike, Gather, ValueOf, Items, BareOrList, GuardedList, Own, FactorLike;
    OwnIsRead(env, c);
    BareOrMeans(c);
    SqlMeans(c);
    MeaningMeans(env, c);
    hide SqlOf, Meaning, BareOr;
    var items := (if Own(env, c).Some? then [Item(Unset, Own(env, c).value)] else []) + Items(env, c.children);
    if OwnIsEmpty(c) {
      GatherFromNothing(env, c.children, false);
      assert [] + Items(env, c.children) == Items(env, c.children);
    } else {
      GatherFromPart(env, Start(own), Own(env, c).value, false, c.children);
    }
    if items != [] {
      var v := ValueOf(items);
      ParenthesesAreFactor(env, g.tokens, g.args, v);
      FactorIsTerm(env, [Open] + g.tokens + [Close], g.args, v);
      TermIsExpr(env, [Open] + g.tokens + [Close], g.args, v);
    }
  }

  lemma {:induction false} TreeIsRead(env: Env, c: Condition)
    requires SqlOf(c).Sql? && Guarded(c)
    ensures ChildReads(env, c)
    decreases c, 1
  {
    BuiltParts(c);
    GuardedParts(!OwnIsEmpty(c), false, c.children);
    ChildrenAreRead(env, c.children);
    hide *;
    NodeIsRead(env, c);
  }

  lemma BuiltParts(c: Condition)
    requires SqlOf(c).Sql?
    ensures BuildSingleCondition(c).Sql? && AllBuilt(c.children)
  {
    BuiltOrBroken(Start(BuildSingleCondition(c)), c.children);
  }

  lemma {:induction false} GuardedParts(some: bool, bare: bool, cs: seq<Condition>)
    requires GuardedList(some, bare, cs)
    ensures forall i :: 0 <= i < |cs| ==> Guarded(cs[i])
    decreases cs
  {
    hide Guarded, Speaks, BareOr;
    if cs != [] {
      GuardedParts(if Speaks(cs[0]) then true else some, if Speaks(cs[0]) then BareOr(cs[0]) else bare, cs[1..]);
    }
  }

  lemma {:induction false} ChildrenAreRead(env: Env, cs: seq<Condition>)
    requires AllBuilt(cs) && forall i :: 0 <= i < |cs| ==> Guarded(cs[i])
    ensures AllRead(env, cs)
    decreases cs, 0
  {
    hide SqlOf, Guarded, ChildReads;
    if cs != [] {
      TreeIsRead(env, cs[0]);
      ChildrenAreRead(env, cs[1..]);
    }
  }

  // ----- Main results -----

  /** The SQL of a guarded tree, read with AND binding tighter than OR and its placeholders filled from left
      to right, uses up the text and the arguments and has the truth value of the tree, whatever the truth
      of the predicates; and nothing is printed exactly when the tree says nothing. */
  lemma SqlKeepsTheMeaning(env: Env, c: Condition)
    requires Guarded(c) && SqlOf(c).Sql?
    ensures Speaks(c) <==> Meaning(env, c).Some?
    ensures Speaks(c) ==> ReadExpr(env, SqlOf(c).tokens, SqlOf(c).args) == Read(Meaning(env, c).value, [], [])
  {
    hide Guarded, Meaning, SqlOf, ReadExpr, TermLike, BareOr;
    TreeIsRead(env, c);
    SpeaksMeans(c);
    if Speaks(c) {
      WholeReads(env, SqlOf(c).tokens, SqlOf(c).args, Meaning(env, c).value);
    }
  }

  /** Only the root has both a field of its own and children. */
  predicate OnlyRootHasBoth(c: Condition) {
    forall i :: 0 <= i < |c.children| ==> NoneHasBoth(c.children[i])
  }

  predicate NoneHasBoth(c: Condition) {
    (c.field == "" || c.children == []) && forall i :: 0 <= i < |c.children| ==> NoneHasBoth(c.children[i])
  }

  lemma {:induction false} NoneHasBothIsGuarded(c: Condition)
    requires NoneHasBoth(c)
    ensures Guarded(c) && !BareOr(c)
    decreases c, 1
  {
    ListIsGuarded(!OwnIsEmpty(c), c.children);
  }

  lemma {:induction false} ListIsGuarded(some: bool, cs: seq<Condition>)
    requires forall i :: 0 <= i < |cs| ==> NoneHasBoth(cs[i])
    ensures GuardedList(some, false, cs)
    decreases cs, 0
  {
    hide Guarded, NoneHasBoth, Speaks, BareOr;
    if cs != [] {
      NoneHasBothIsGuarded(cs[0]);
      ListIsGuarded(some, cs[1..]);
      ListIsGuarded(true, cs[1..]);
    }
  }

  /** In particular for every tree in which only the root has both a field and children. */
  lemma OnlyRootWithBothKeepsTheMeaning(env: Env, c: Condition)
    requires OnlyRootHasBoth(c) && SqlOf(c).Sql? && Speaks(c)
    ensures Meaning(env, c).Some?
    ensures ReadExpr(env, SqlOf(c).tokens, SqlOf(c).args) == Read(Meaning(env, c).value, [], [])
  {
    hide GuardedList, NoneHasBoth, Meaning, SqlOf, ReadExpr;
    ListIsGuarded(!OwnIsEmpty(c), c.children);
    SqlKeepsTheMeaning(env, c);
  }
}
