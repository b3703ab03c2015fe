/** How the SQL of any tree reads, as a formula over the tree's predicates, beside what the tree means. */
module ClauseParts {
  import opened Options
  import opened ClauseBuilder
  import opened ClauseMeaning
  import opened Formulas
  import opened ClauseTheorem
  import opened ClauseArgs
  import opened ClauseFormula

  // ----- The parts of a node, as they are meant and as they are read -----

  function OwnParts(c: Condition): seq<Part> {
    match BuildSingleCondition(c)
    case Failed(_) => []
    case Sql(ts, args) =>
      if ts == [] then [] else [Part(false, Named(Bound(c.field, c.operator, args)), BuildSingleCondition(c))]
  }

  /** What is meant: each child that says something is one part. */
  function MeantParts(c: Condition): seq<Part>
    decreases c, 1
  {
    OwnParts(c) + MeantTail(c.children)
  }

  function MeantTail(cs: seq<Condition>): seq<Part>
    decreases cs, 0
  {
    if cs == [] then [] else AsOne(cs[0], MeantParts(cs[0])) + MeantTail(cs[1..])
  }

  function AsOne(c: Condition, parts: seq<Part>): seq<Part> {
    if parts == [] then [] else [Part(c.logic.LogicOr?, Whole(parts), SqlOf(c))]
  }

  /** What is read: a child in parentheses is one part, the parts of any other child mix with those
      around it. */
  function ReadParts(c: Condition): seq<Part>
    decreases c, 1
  {
    var all := OwnParts(c) + ReadTail(c.children);
    if all != [] && Grouped(c) then [Part(false, Whole(all), SqlOf(c))] else all
  }

  function ReadTail(cs: seq<Condition>): seq<Part>
    decreases cs, 0
  {
    if cs == [] then [] else Led(cs[0].logic.LogicOr?, ReadParts(cs[0])) + ReadTail(cs[1..])
  }

  /** Whether the builder puts parentheses around the condition. */
  predicate Grouped(c: Condition) {
    var g := Gather(Start(BuildSingleCondition(c)), c.children);
    (c.field == "" && c.children != []) || (g.Gathered? && g.hasAnd && g.hasOr)
  }

  // ----- Both have the predicates of the tree, in order -----

  lemma {:induction false} MeantNames(c: Condition)
    requires SqlOf(c).Sql?
    ensures NamesOf(MeantParts(c)) == Leaves(c)
    decreases c, 1
  {
    BuiltParts(c);
    MeantTailNames(c.children);
    hide SqlOf, MeantTail, LeavesOfAll;
    NamesOfJoined(OwnParts(c), MeantTail(c.children));
    OwnNames(c);
  }

  lemma OwnNames(c: Condition)
    ensures NamesOf(OwnParts(c)) + LeavesOfAll(c.children) == Leaves(c)
  {
    hide LeavesOfAll;
    if OwnParts(c) != [] {
      var p := OwnParts(c)[0];
      assert OwnParts(c)[1..] == [] && [p.formula.name] + [] == [p.formula.name];
    }
  }

  lemma {:induction false} MeantTailNames(cs: seq<Condition>)
    requires AllBuilt(cs)
    ensures NamesOf(MeantTail(cs)) == LeavesOfAll(cs)
    decreases cs, 0
  {
    hide SqlOf, MeantParts, Leaves;
    if cs != [] {
      MeantNames(cs[0]);
      MeantTailNames(cs[1..]);
      var parts := MeantParts(cs[0]);
      NamesOfJoined(AsOne(cs[0], parts), MeantTail(cs[1..]));
      if parts != [] {
        NamesOfOne(cs[0], parts);
      }
    }
  }

  lemma NamesOfWhole(parts: seq<Part>)
    requires parts != []
    ensures Names(Whole(parts)) == NamesOf(parts)
  {
    NamesOfBehind(parts[0].formula, parts[1..]);
  }

  lemma NamesOfOne(c: Condition, parts: seq<Part>)
    requires parts != []
    ensures NamesOf(AsOne(c, parts)) == NamesOf(parts)
  {
    hide SqlOf, Whole;
    NamesOfWhole(parts);
    NamesOfSingle(AsOne(c, parts)[0]);
  }

  lemma NamesOfSingle(p: Part)
    ensures NamesOf([p]) == Names(p.formula)
  {
    assert [p][1..] == [] && Names(p.formula) + [] == Names(p.formula);
  }

  lemma {:induction false} ReadNames(c: Condition)
    requires SqlOf(c).Sql?
    ensures NamesOf(ReadParts(c)) == Leaves(c)
    decreases c, 1
  {
    BuiltParts(c);
    ReadTailNames(c.children);
    hide SqlOf, ReadTail, LeavesOfAll, Whole, Grouped;
    var all := OwnParts(c) + ReadTail(c.children);
    NamesOfJoined(OwnParts(c), ReadTail(c.children));
    OwnNames(c);
    if all != [] {
      NamesOfWhole(all);
      NamesOfSingle(Part(false, Whole(all), SqlOf(c)));
    }
  }

  lemma {:induction false} ReadTailNames(cs: seq<Condition>)
    requires AllBuilt(cs)
    ensures NamesOf(ReadTail(cs)) == LeavesOfAll(cs)
    decreases cs, 0
  {
    hide SqlOf, ReadParts, Leaves;
    if cs != [] {
      ReadNames(cs[0]);
      ReadTailNames(cs[1..]);
      var parts := ReadParts(cs[0]);
      NamesOfJoined(Led(cs[0].logic.LogicOr?, parts), ReadTail(cs[1..]));
    }
  }

  // ----- The meaning is that of the parts meant -----

  lemma {:induction false} PartsMean(env: Env, c: Condition)
    requires SqlOf(c).Sql?
    ensures Meaning(env, c) == if MeantParts(c) == [] then None else Some(Eval(env, Whole(MeantParts(c))))
    decreases c, 1
  {
    BuiltParts(c);
    OwnMeans(env, c);
    MeaningMeans(env, c);
    var own := OwnParts(c);
    var tail := MeantTail(c.children);
    if own != [] {
      BehindMeans(env, own[0].formula, c.children);
      assert (own + tail)[1..] == tail;
    } else {
      TailMeans(env, c.children);
      assert [] + tail == tail && [] + Items(env, c.children) == Items(env, c.children);
    }
  }

  lemma OwnMeans(env: Env, c: Condition)
    requires BuildSingleCondition(c).Sql?
    ensures Own(env, c) == if OwnParts(c) == [] then None else Some(Eval(env, OwnParts(c)[0].formula))
  {}

  /** The items of the children, given what each means. */
  lemma ItemsStep(env: Env, cs: seq<Condition>)
    requires cs != []
    requires Meaning(env, cs[0]) == if MeantParts(cs[0]) == [] then None else Some(Eval(env, Whole(MeantParts(cs[0]))))
    ensures if MeantParts(cs[0]) == [] then
        Items(env, cs) == Items(env, cs[1..]) && MeantTail(cs) == MeantTail(cs[1..])
      else
        var part := AsOne(cs[0], MeantParts(cs[0]))[0];
        && part.or == cs[0].logic.LogicOr?
        && Items(env, cs) == [Item(cs[0].logic, Eval(env, part.formula))] + Items(env, cs[1..])
        && MeantTail(cs) == [part] + MeantTail(cs[1..])
  {
    hide Meaning, MeantParts, SqlOf, Whole;
  }

  lemma {:induction false} BehindMeans(env: Env, run: Sentence, cs: seq<Condition>)
    requires AllBuilt(cs)
    ensures ValueOf([Item(Unset, Eval(env, run))] + Items(env, cs)) == Eval(env, Behind(run, MeantTail(cs)))
    decreases cs, 0
  {
    hide SqlOf, Meaning, MeantParts, ValueOf, Items, MeantTail;
    if cs == [] {
      NothingMeant(env, run);
    } else {
      PartsMean(env, cs[0]);
      ItemsStep(env, cs);
      var rest := cs[1..];
      if MeantParts(cs[0]) == [] {
        BehindMeans(env, run, rest);
      } else {
        var part := AsOne(cs[0], MeantParts(cs[0]))[0];
        var v, w := Eval(env, run), Eval(env, part.formula);
        assert MeantTail(cs)[0] == part && MeantTail(cs)[1..] == MeantTail(rest);
        if part.or {
          BehindMeans(env, part.formula, rest);
          SplitOr(Unset, v, cs[0].logic, w, Items(env, rest));
        } else {
          BehindMeans(env, Both(run, part.formula), rest);
          MergeAnd(Unset, v, cs[0].logic, w, Items(env, rest));
        }
      }
    }
  }

  lemma NothingMeant(env: Env, run: Sentence)
    ensures Items(env, []) == [] && MeantTail([]) == []
    ensures ValueOf([Item(Unset, Eval(env, run))] + []) == Eval(env, run)
  {
    assert [Item(Unset, Eval(env, run))] + [] == [Item(Unset, Eval(env, run))];
  }

  lemma {:induction false} TailMeans(env: Env, cs: seq<Condition>)
    requires AllBuilt(cs)
    ensures Items(env, cs) == [] <==> MeantTail(cs) == []
    ensures Items(env, cs) != [] ==> ValueOf(Items(env, cs)) == Eval(env, Whole(MeantTail(cs)))
    decreases cs, 0
  {
    if cs != [] {
      hide SqlOf, Meaning, MeantParts, ValueOf, Items, MeantTail;
      PartsMean(env, cs[0]);
      ItemsStep(env, cs);
      if MeantParts(cs[0]) == [] {
        TailMeans(env, cs[1..]);
      } else {
        var part := AsOne(cs[0], MeantParts(cs[0]))[0];
        BehindMeans(env, part.formula, cs[1..]);
        assert MeantTail(cs)[0] == part && MeantTail(cs)[1..] == MeantTail(cs[1..]);
        FirstLogicIsIgnored(cs[0].logic, Unset, Eval(env, part.formula), Items(env, cs[1..]));
      }
    }
  }

  // ----- The text is that of the parts read -----

  /** The text and the arguments are those of the parts. */
  predicate IsTextOf(ts: seq<Token>, args: seq<Value>, parts: seq<Part>) {
    && AllSpelled(parts)
    && (ts == [] <==> parts == [])
    && (parts != [] ==> ts == Text(parts) && args == SpellArgs(parts))
  }

  predicate Spelled(c: Condition) {
    SqlOf(c).Sql? && IsTextOf(SqlOf(c).tokens, SqlOf(c).args, ReadParts(c))
  }

  /** The parts of a node before parentheses are put around them. */
  function InnerParts(c: Condition): seq<Part> {
    OwnParts(c) + ReadTail(c.children)
  }

  lemma SpellStep(p: Part, rest: seq<Part>)
    requires p.text.Sql?
    ensures Spell([p] + rest) == [OperatorToken(p.or)] + Text([p] + rest)
    ensures Text([p] + rest) == p.text.tokens + Spell(rest)
    ensures SpellArgs([p] + rest) == p.text.args + SpellArgs(rest)
  {
    assert ([p] + rest)[1..] == rest;
  }

  lemma TextJoined(p: seq<Part>, q: seq<Part>)
    requires p != [] && AllSpelled(p)
    ensures Text(p + q) == Text(p) + Spell(q) && SpellArgs(p + q) == SpellArgs(p) + SpellArgs(q)
  {
    hide Spell, SpellArgs, Text;
    var first, rest := p[0], p[1..];
    SpellJoined(p, q);
    SpellJoined(rest, q);
    SpellStep(first, rest);
    SpellStep(first, rest + q);
    Regroup(first.text.tokens, Spell(rest), Spell(q));
    assert [first] + rest == p && [first] + (rest + q) == p + q;
  }

  lemma LedAlone(or: bool, parts: seq<Part>)
    requires parts != [] && AllSpelled(parts)
    ensures AllSpelled(Led(or, parts)) && Led(or, parts) != []
    ensures Spell(Led(or, parts)) == [OperatorToken(or)] + Text(parts)
    ensures Text(Led(or, parts)) == Text(parts) && SpellArgs(Led(or, parts)) == SpellArgs(parts)
  {
    var first, rest := parts[0], parts[1..];
    SpellStep(first.(or := or), rest);
    SpellStep(first, rest);
    assert [first] + rest == parts;
    hide Spell, SpellArgs, Text;
  }

  lemma LedText(or: bool, parts: seq<Part>, rest: seq<Part>)
    requires parts != [] && AllSpelled(parts)
    ensures AllSpelled(Led(or, parts))
    ensures Spell(Led(or, parts) + rest) == [OperatorToken(or)] + Text(parts) + Spell(rest)
    ensures Text(Led(or, parts) + rest) == Text(parts) + Spell(rest)
    ensures SpellArgs(Led(or, parts) + rest) == SpellArgs(parts) + SpellArgs(rest)
  {
    hide *;
    LedAlone(or, parts);
    SpellJoined(Led(or, parts), rest);
    TextJoined(Led(or, parts), rest);
  }

  lemma PrintsParts(c: Condition)
    requires Spelled(c)
    ensures Speaks(c) <==> ReadParts(c) != []
    ensures AllSpelled(ReadParts(c)) && SqlOf(c).Sql?
    ensures Speaks(c) ==> SqlOf(c) == Sql(Text(ReadParts(c)), SpellArgs(ReadParts(c)))
  {
    SpeaksMeans(c);
    hide SqlOf, ReadParts, Text, SpellArgs, Speaks;
  }

  lemma ReadTailStep(cs: seq<Condition>)
    requires cs != []
    ensures ReadParts(cs[0]) == [] ==> ReadTail(cs) == ReadTail(cs[1..])
    ensures ReadTail(cs) == Led(cs[0].logic.LogicOr?, ReadParts(cs[0])) + ReadTail(cs[1..])
  {
    hide ReadParts;
  }

  lemma TailTextStep(cs: seq<Condition>)
    requires cs != [] && SqlOf(cs[0]).Sql?
    ensures !Speaks(cs[0]) ==> Tail(cs) == Tail(cs[1..]) && TailArgs(cs) == TailArgs(cs[1..])
    ensures Speaks(cs[0]) ==>
      && Tail(cs) == [OperatorToken(cs[0].logic.LogicOr?)] + SqlOf(cs[0]).tokens + Tail(cs[1..])
      && TailArgs(cs) == SqlOf(cs[0]).args + TailArgs(cs[1..])
  {
    SpeaksMeans(cs[0]);
    hide SqlOf, Speaks;
    assert [] + Tail(cs[1..]) == Tail(cs[1..]) && [] + TailArgs(cs[1..]) == TailArgs(cs[1..]);
  }

  lemma {:induction false} TailText(cs: seq<Condition>)
    requires forall i :: 0 <= i < |cs| ==> Spelled(cs[i])
    ensures AllSpelled(ReadTail(cs)) && Tail(cs) == Spell(ReadTail(cs)) && TailArgs(cs) == SpellArgs(ReadTail(cs))
    decreases |cs|
  {
    if cs != [] {
      hide Spelled, SqlOf, ReadParts, ReadTail, Tail, TailArgs, Spell, SpellArgs, Text, Speaks;
      TailText(cs[1..]);
      PrintsParts(cs[0]);
      ReadTailStep(cs);
      TailTextStep(cs);
      if Speaks(cs[0]) {
        LedText(cs[0].logic.LogicOr?, ReadParts(cs[0]), ReadTail(cs[1..]));
      }
    }
  }

  lemma AllBuiltFromSpelled(cs: seq<Condition>)
    requires forall i :: 0 <= i < |cs| ==> Spelled(cs[i])
    ensures AllBuilt(cs)
  {
    hide SqlOf, ReadParts;
  }

  /** Without an own predicate the first child that prints comes first. */
  lemma {:induction false} NothingThenTail(cs: seq<Condition>)
    requires forall i :: 0 <= i < |cs| ==> Spelled(cs[i])
    ensures var g := Gather(Start(NOTHING), cs);
      g.Gathered? && IsTextOf(g.tokens, g.args, ReadTail(cs))
    decreases |cs|
  {
    hide Spelled, SqlOf, ReadParts, ReadTail, Tail, TailArgs, Spell, SpellArgs, Text, Gather, Join, Speaks, Led, AllSpelled;
    if cs == [] {
      NothingToSpell();
    } else {
      PrintsParts(cs[0]);
      ReadTailStep(cs);
      GatherStep(Start(NOTHING), cs);
      if !Speaks(cs[0]) {
        NothingThenTail(cs[1..]);
      } else {
        var part, rest := SqlOf(cs[0]), cs[1..];
        SpeaksMeans(cs[0]);
        FirstIsJoined(cs[0].logic, part);
        AllBuiltFromSpelled(rest);
        GatherIsTail(Gathered(part.tokens, part.args, false, false), rest);
        TailText(rest);
        LedText(cs[0].logic.LogicOr?, ReadParts(cs[0]), ReadTail(rest));
        LedIsSpelled(cs[0].logic.LogicOr?, ReadParts(cs[0]), ReadTail(rest));
      }
    }
  }

  lemma NothingToSpell()
    ensures Gather(Start(NOTHING), []) == Gathered([], [], false, false) && ReadTail([]) == [] && AllSpelled([])
  {}

  lemma LedIsSpelled(or: bool, parts: seq<Part>, rest: seq<Part>)
    requires parts != [] && AllSpelled(Led(or, parts)) && AllSpelled(rest)
    ensures Led(or, parts) + rest != [] && AllSpelled(Led(or, parts) + rest)
  {
    assert |Led(or, parts) + rest| > 0;
    hide Led;
  }

  lemma OwnText(c: Condition, rest: seq<Part>)
    requires BuildSingleCondition(c).Sql? && !OwnIsEmpty(c) && AllSpelled(rest)
    ensures AllSpelled(OwnParts(c) + rest)
    ensures Text(OwnParts(c) + rest) == BuildSingleCondition(c).tokens + Spell(rest)
    ensures SpellArgs(OwnParts(c) + rest) == BuildSingleCondition(c).args + SpellArgs(rest)
    ensures BuildSingleCondition(c).tokens != [] && OwnParts(c) != []
  {
    assert (OwnParts(c) + rest)[1..] == rest;
  }

  lemma GatheredText(c: Condition)
    requires BuildSingleCondition(c).Sql? && forall i :: 0 <= i < |c.children| ==> Spelled(c.children[i])
    ensures var g := Gather(Start(BuildSingleCondition(c)), c.children);
      g.Gathered? && IsTextOf(g.tokens, g.args, InnerParts(c))
  {
    hide Spelled, SqlOf, ReadTail, Spell, SpellArgs, Text, Gather, BuildSingleCondition, OwnParts;
    if OwnIsEmpty(c) {
      NoOwnParts(c);
      NothingThenTail(c.children);
    } else {
      AllBuiltFromSpelled(c.children);
      TailText(c.children);
      OwnText(c, ReadTail(c.children));
      GatherIsTail(Start(BuildSingleCondition(c)), c.children);
    }
  }

  lemma NoOwnParts(c: Condition)
    requires OwnIsEmpty(c) && BuildSingleCondition(c).Sql?
    ensures InnerParts(c) == ReadTail(c.children) && OwnParts(c) == [] && BuildSingleCondition(c) == NOTHING
  {}

  /** The text of a node is that of its inner parts, in parentheses where it is grouped. */
  lemma NodeText(c: Condition)
    requires BuildSingleCondition(c).Sql? && forall i :: 0 <= i < |c.children| ==> Spelled(c.children[i])
    ensures AllSpelled(InnerParts(c))
    ensures InnerParts(c) == [] ==> SqlOf(c) == NOTHING
    ensures InnerParts(c) != [] ==>
      SqlOf(c) == Sql(if Grouped(c) then [Open] + Text(InnerParts(c)) + [Close] else Text(InnerParts(c)), SpellArgs(InnerParts(c)))
      && Text(InnerParts(c)) != []
  {
    GatheredText(c);
    SqlMeans(c);
    hide Spelled, SqlOf, InnerParts, Spell, SpellArgs, Text, Gather, BuildSingleCondition;
  }

  lemma ReadPartsMeans(c: Condition)
    ensures ReadParts(c) == if InnerParts(c) != [] && Grouped(c) then [Part(false, Whole(InnerParts(c)), SqlOf(c))]
                            else InnerParts(c)
  {
    hide Grouped, Whole, SqlOf, OwnParts;
  }

  lemma NodeSpells(c: Condition)
    requires BuildSingleCondition(c).Sql? && forall i :: 0 <= i < |c.children| ==> Spelled(c.children[i])
    ensures Spelled(c)
  {
    NodeText(c);
    ReadPartsMeans(c);
    hide InnerParts, SqlOf, ReadParts, Whole, Grouped, BuildSingleCondition;
    if InnerParts(c) != [] && Grouped(c) {
      SingleText(ReadParts(c)[0]);
    }
  }

  lemma SingleText(p: Part)
    requires p.text.Sql?
    ensures Text([p]) == p.text.tokens && SpellArgs([p]) == p.text.args && AllSpelled([p])
  {
    assert [p][1..] == [] && p.text.tokens + [] == p.text.tokens && p.text.args + [] == p.text.args;
  }

  lemma {:induction false} PartsSpell(c: Condition)
    requires SqlOf(c).Sql?
    ensures Spelled(c)
    decreases c, 1
  {
    BuiltParts(c);
    ChildrenSpell(c.children);
    hide *;
    NodeSpells(c);
  }

  lemma {:induction false} ChildrenSpell(cs: seq<Condition>)
    requires AllBuilt(cs)
    ensures forall i :: 0 <= i < |cs| ==> Spelled(cs[i])
    decreases cs, 0
  {
    hide Spelled, SqlOf;
    if cs != [] {
      PartsSpell(cs[0]);
      ChildrenSpell(cs[1..]);
    }
  }

  // ----- What is read -----

  lemma {:induction false} PartsAreFactors(env: Env, c: Condition)
    requires SqlOf(c).Sql?
    ensures AllFactors(env, ReadParts(c))
    decreases c, 1
  {
    BuiltParts(c);
    ChildrenSpell(c.children);
    TailIsFactors(env, c.children);
    OwnIsFactor(env, c);
    NodeText(c);
    ReadPartsMeans(c);
    hide SqlOf, InnerParts, ReadParts, ReadTail, OwnParts, Text, SpellArgs, Whole, Spelled, Grouped, IsFactor, BuildSingleCondition;
    FactorsJoined(env, c);
    var all := InnerParts(c);
    if all != [] && Grouped(c) {
      WholeIsRead(env, all);
      hide ExprLike, FactorLike;
      ParenthesesAreFactor(env, Text(all), SpellArgs(all), Eval(env, Whole(all)));
      FactorInParentheses(env, ReadParts(c)[0]);
    }
  }

  lemma FactorInParentheses(env: Env, p: Part)
    requires p.text.Sql? && FactorLike(env, p.text.tokens, p.text.args, Eval(env, p.formula))
    ensures IsFactor(env, p)
  {
    hide FactorLike;
  }

  lemma FactorsJoined(env: Env, c: Condition)
    requires AllFactors(env, OwnParts(c)) && AllFactors(env, ReadTail(c.children))
    ensures AllFactors(env, InnerParts(c))
  {
    hide IsFactor, OwnParts, ReadTail;
  }

  lemma OwnIsFactor(env: Env, c: Condition)
    ensures AllFactors(env, OwnParts(c))
  {
    hide FactorLike;
    if OwnParts(c) != [] {
      PredicateIsFactor(env, c.field, c.operator, BuildSingleCondition(c).args);
    }
  }

  lemma {:induction false} TailIsFactors(env: Env, cs: seq<Condition>)
    requires AllBuilt(cs)
    ensures AllFactors(env, ReadTail(cs))
    decreases cs, 0
  {
    hide SqlOf, ReadParts, FactorLike, Whole;
    if cs != [] {
      PartsAreFactors(env, cs[0]);
      TailIsFactors(env, cs[1..]);
    }
  }

  /** How the SQL of any tree reads, whether or not that is what the tree means. */
  lemma ReadsAsParts(env: Env, c: Condition)
    requires SqlOf(c).Sql? && Speaks(c)
    ensures ReadParts(c) != []
    ensures ReadExpr(env, SqlOf(c).tokens, SqlOf(c).args) == Read(Eval(env, Whole(ReadParts(c))), [], [])
  {
    PartsSpell(c);
    PartsAreFactors(env, c);
    hide *;
    PrintsParts(c);
    var parts := ReadParts(c);
    WholeIsRead(env, parts);
    WholeReads(env, Text(parts), SpellArgs(parts), Eval(env, Whole(parts)));
  }
}
