/** Exactly when the SQL of the builder has the meaning of the tree. */
module ClauseExact {
  import opened ClauseBuilder
  import opened ClauseMeaning
  import opened Formulas
  import opened ClauseTheorem
  import opened ClauseArgs
  import opened ClauseFormula
  import opened ClauseParts

  // ----- A bare OR is read as several parts -----

  predicate HasOr(parts: seq<Part>) {
    exists k :: 0 < k < |parts| && parts[k].or
  }

  lemma HasOrStays(before: seq<Part>, or: bool, parts: seq<Part>, after: seq<Part>)
    requires HasOr(parts)
    ensures HasOr(before + Led(or, parts) + after)
  {
    var k :| 0 < k < |parts| && parts[k].or;
    assert (before + Led(or, parts) + after)[|before| + k] == parts[k];
  }

  lemma {:induction false} BareHasNoAnd(g: Gathered, bare: bool, cs: seq<Condition>)
    requires g.Gathered? && !g.hasAnd && AllBuilt(cs) && BareOrList(g.tokens != [], bare, cs)
    ensures Gather(g, cs).Gathered? && !Gather(g, cs).hasAnd
    decreases |cs|
  {
    hide SqlOf, Speaks, BareOr, Joins, Tail, TailArgs, Gather;
    if cs == [] {
      NothingGathered(g);
    } else {
      GatherStep(g, cs);
      SpeaksMeans(cs[0]);
      var g' := Join(g, cs[0].logic, SqlOf(cs[0]));
      if !Speaks(cs[0]) {
        BareHasNoAnd(g, bare, cs[1..]);
      } else if g.tokens == [] {
        BareHasNoAnd(g', BareOr(cs[0]), cs[1..]);
      } else {
        GatherIsTail(g', cs[1..]);
      }
    }
  }

  lemma NothingGathered(g: Gathered)
    ensures Gather(g, []) == g
  {}

  lemma BareIsNotGrouped(c: Condition)
    requires BareOr(c) && BuildSingleCondition(c).Sql? && AllBuilt(c.children)
    ensures !Grouped(c)
  {
    hide BareOrList, Gather, AllBuilt;
    BareHasNoAnd(Start(BuildSingleCondition(c)), false, c.children);
  }

  /** Every formula names something, so the parts meant and the parts read are there together. */
  lemma PartsTogether(c: Condition)
    requires SqlOf(c).Sql?
    ensures Speaks(c) <==> MeantParts(c) != []
    ensures Speaks(c) <==> ReadParts(c) != []
  {
    PartsSpell(c);
    MeantNames(c);
    ReadNames(c);
    hide *;
    PrintsParts(c);
    SomethingNamed(MeantParts(c));
    SomethingNamed(ReadParts(c));
  }

  lemma SomethingNamed(parts: seq<Part>)
    ensures NamesOf(parts) == [] <==> parts == []
  {
    if parts != [] {
      FormulaNames(parts[0].formula);
    }
  }

  lemma {:induction false} FormulaNames(f: Sentence)
    ensures Names(f) != []
    decreases f
  {
    if !f.Named? {
      FormulaNames(f.left);
    }
  }

  lemma {:induction false} BareOrHasOr(c: Condition)
    requires BareOr(c) && SqlOf(c).Sql?
    ensures HasOr(ReadParts(c))
    decreases c, 1
  {
    BuiltParts(c);
    BareIsNotGrouped(c);
    BareListHasOr(OwnParts(c), false, c.children);
  }

  lemma {:induction false} BareListHasOr(before: seq<Part>, bare: bool, cs: seq<Condition>)
    requires (bare ==> HasOr(before)) && AllBuilt(cs) && BareOrList(before != [], bare, cs)
    ensures HasOr(before + ReadTail(cs))
    decreases cs, 0
  {
    hide SqlOf, Speaks, BareOr, Joins, ReadParts, HasOr, ReadTail;
    if cs == [] {
      NothingRead();
      assert before + [] == before;
    } else {
      PartsTogether(cs[0]);
      ReadTailStep(cs);
      var led, rest := Led(cs[0].logic.LogicOr?, ReadParts(cs[0])), ReadTail(cs[1..]);
      if !Speaks(cs[0]) {
        BareListHasOr(before, bare, cs[1..]);
      } else if before == [] {
        if BareOr(cs[0]) {
          BareOrHasOr(cs[0]);
          HasOrStays([], cs[0].logic.LogicOr?, ReadParts(cs[0]), []);
          assert [] + led + [] == led;
        }
        BareListHasOr(led, BareOr(cs[0]), cs[1..]);
        assert before + (led + rest) == led + rest;
      } else {
        OrAt(before + (led + rest), |before|);
      }
    }
  }

  lemma NothingRead()
    ensures ReadTail([]) == [] && MeantTail([]) == []
  {}

  lemma OrAt(parts: seq<Part>, k: nat)
    requires 0 < k < |parts| && parts[k].or
    ensures HasOr(parts)
  {}

  // ----- Where a bare OR stands beside an AND -----

  /** The last part so far: as read it begins at `at`. */
  predicate Stands(read: seq<Part>, meant: seq<Part>, at: nat, bare: bool) {
    && at < |read| && meant != []
    && (forall x :: x in Names(read[at].formula) ==> x in Names(meant[|meant| - 1].formula))
    && (bare ==> exists k :: at < k < |read| && read[k].or)
  }

  lemma PartIsMeant(c: Condition, i: nat, x: Bound)
    requires SqlOf(c).Sql? && i < |ReadParts(c)| && x in Names(ReadParts(c)[i].formula)
    ensures MeantParts(c) != [] && x in Names(Whole(MeantParts(c)))
  {
    ReadNames(c);
    MeantNames(c);
    hide *;
    NameOfPart(ReadParts(c), i, x);
    NothingNamed();
    NamesOfWhole(MeantParts(c));
  }

  lemma NothingNamed()
    ensures NamesOf<Bound, Built>([]) == []
  {}

  lemma LedAt(before: seq<Part>, or: bool, parts: seq<Part>, i: nat)
    requires i < |parts|
    ensures var all := before + Led(or, parts);
      && |all| == |before| + |parts| && all[|before| + i].formula == parts[i].formula
      && (i > 0 ==> all[|before| + i] == parts[i])
      && forall k :: 0 <= k < |before| ==> all[k] == before[k]
  {}

  lemma OneAt(before: seq<Part>, c: Condition, parts: seq<Part>)
    requires parts != []
    ensures var all := before + AsOne(c, parts);
      && |all| == |before| + 1 && all[|before|].formula == Whole(parts) && all[|before|].or == c.logic.LogicOr?
      && forall k :: 0 <= k < |before| ==> all[k] == before[k]
  {
    hide Whole, SqlOf;
  }

  lemma BareHasOrAt(c: Condition) returns (k: nat)
    requires BareOr(c) && SqlOf(c).Sql?
    ensures 0 < k < |ReadParts(c)| && ReadParts(c)[k].or
  {
    BareOrHasOr(c);
    hide ReadParts;
    k :| 0 < k < |ReadParts(c)| && ReadParts(c)[k].or;
  }

  lemma StandsAt(read: seq<Part>, meant: seq<Part>, at: nat, bare: bool, k: nat)
    requires at < |read| && meant != []
    requires forall x :: x in Names(read[at].formula) ==> x in Names(meant[|meant| - 1].formula)
    requires bare ==> at < k < |read| && read[k].or
    ensures Stands(read, meant, at, bare)
  {
    hide Names;
  }

  lemma ChildStands(read: seq<Part>, meant: seq<Part>, c: Condition)
    requires SqlOf(c).Sql? && Speaks(c)
    ensures ReadParts(c) != [] && MeantParts(c) != []
    ensures Stands(read + Led(c.logic.LogicOr?, ReadParts(c)), meant + AsOne(c, MeantParts(c)), |read|, BareOr(c))
  {
    hide *;
    PartsTogether(c);
    var all, both := read + Led(c.logic.LogicOr?, ReadParts(c)), meant + AsOne(c, MeantParts(c));
    LedAt(read, c.logic.LogicOr?, ReadParts(c), 0);
    OneAt(meant, c, MeantParts(c));
    forall x | x in Names(all[|read|].formula) ensures x in Names(both[|both| - 1].formula) {
      PartIsMeant(c, 0, x);
    }
    var k: nat := 0;
    if BareOr(c) {
      k := BareHasOrAt(c);
      LedAt(read, c.logic.LogicOr?, ReadParts(c), k);
    }
    StandsAt(all, both, |read|, BareOr(c), |read| + k);
  }

  lemma StandsMeans(read: seq<Part>, meant: seq<Part>, at: nat, bare: bool) returns (k: nat)
    requires Stands(read, meant, at, bare)
    ensures at < |read| && meant != []
    ensures forall x :: x in Names(read[at].formula) ==> x in Names(meant[|meant| - 1].formula)
    ensures bare ==> at < k < |read| && read[k].or
  {
    hide Names;
    k := 0;
    if bare {
      k :| at < k < |read| && read[k].or;
    }
  }

  lemma ApartAt(parts: seq<Part>, i: nat, k: nat, j: nat, a: Bound, b: Bound)
    requires i < k <= j < |parts| && parts[k].or && a in Names(parts[i].formula) && b in Names(parts[j].formula)
    ensures Apart(parts, a, b)
  {
    hide Names, Gate;
    assert Divides(parts, i, k, j, a, b);
  }

  lemma LinkedAt(parts: seq<Part>, i: nat, a: Bound, b: Bound)
    requires 0 < i < |parts| && !parts[i].or && a in Names(parts[i - 1].formula) && b in Names(parts[i].formula)
    ensures Linked(parts, a, b)
  {
    hide Names, Gate;
  }

  /** Two neighbours joined by AND, one of them a bare OR: the first predicate of the left one and the last
      part of the right one are meant to meet at an AND, and read apart. */
  lemma NeighboursDiffer(read: seq<Part>, meant: seq<Part>, at: nat, bare: bool, c: Condition) returns (a: Bound, b: Bound)
    requires Stands(read, meant, at, bare) && SqlOf(c).Sql? && Speaks(c) && !c.logic.LogicOr?
    requires bare || BareOr(c)
    ensures Linked(meant + AsOne(c, MeantParts(c)), a, b)
    ensures Apart(read + Led(false, ReadParts(c)), a, b)
  {
    hide *;
    PartsTogether(c);
    var k := StandsMeans(read, meant, at, bare);
    var all, last := read + Led(false, ReadParts(c)), |ReadParts(c)| - 1;
    LedAt(read, false, ReadParts(c), last);
    if !bare {
      k := BareHasOrAt(c);
      LedAt(read, false, ReadParts(c), k);
      k := |read| + k;
    }
    FormulaNames(read[at].formula);
    FormulaNames(ReadParts(c)[last].formula);
    a, b := Names(read[at].formula)[0], Names(ReadParts(c)[last].formula)[0];
    ApartAt(all, at, k, |read| + last, a, b);
    PartIsMeant(c, last, b);
    OneAt(meant, c, MeantParts(c));
    LinkedAt(meant + AsOne(c, MeantParts(c)), |meant|, a, b);
  }

  lemma MeantTailStep(cs: seq<Condition>)
    requires cs != []
    ensures MeantParts(cs[0]) == [] ==> MeantTail(cs) == MeantTail(cs[1..])
    ensures MeantTail(cs) == AsOne(cs[0], MeantParts(cs[0])) + MeantTail(cs[1..])
  {
    hide MeantParts, AsOne;
    NothingAsOne(cs[0], MeantTail(cs[1..]));
  }

  lemma NothingAsOne(c: Condition, rest: seq<Part>)
    ensures AsOne(c, []) + rest == rest
  {
    hide Whole, SqlOf;
  }

  lemma Unguarded(some: bool, bare: bool, cs: seq<Condition>)
    requires !GuardedList(some, bare, cs)
    ensures cs != []
    ensures Guarded(cs[0]) && !Speaks(cs[0]) ==> !GuardedList(some, bare, cs[1..])
    ensures Guarded(cs[0]) && Speaks(cs[0]) && !(some && !cs[0].logic.LogicOr? && (bare || BareOr(cs[0]))) ==>
      !GuardedList(true, BareOr(cs[0]), cs[1..])
  {
    hide Guarded, Speaks, BareOr;
  }

  /** Where a tree is not guarded, two predicates are meant to meet at an AND and are read apart. */
  lemma {:induction false} PairInList(read: seq<Part>, meant: seq<Part>, at: nat, bare: bool, cs: seq<Condition>)
    returns (a: Bound, b: Bound)
    requires AllBuilt(cs) && !GuardedList(meant != [], bare, cs)
    requires meant != [] ==> Stands(read, meant, at, bare)
    requires meant == [] <==> read == []
    ensures Linked(meant + MeantTail(cs), a, b) && Apart(read + ReadTail(cs), a, b)
    decreases cs, 0
  {
    hide SqlOf, Speaks, BareOr, Guarded, GuardedList, ReadParts, MeantParts, ReadTail, MeantTail, Stands, Linked, Apart, Led, AsOne;
    Unguarded(meant != [], bare, cs);
    var c, rest := cs[0], cs[1..];
    ReadTailStep(cs);
    MeantTailStep(cs);
    PartsTogether(c);
    var led, one := Led(c.logic.LogicOr?, ReadParts(c)), AsOne(c, MeantParts(c));
    Regroup(read, led, ReadTail(rest));
    Regroup(meant, one, MeantTail(rest));
    if !Guarded(c) {
      a, b := PairInTree(c);
      OneIsLinked(c, a, b);
      LinkedStays(meant, one, MeantTail(rest), a, b);
      ApartStays(read, c.logic.LogicOr?, ReadParts(c), ReadTail(rest), a, b);
    } else if !Speaks(c) {
      a, b := PairInList(read, meant, at, bare, rest);
    } else if meant != [] && !c.logic.LogicOr? && (bare || BareOr(c)) {
      a, b := NeighboursDiffer(read, meant, at, bare, c);
      LinkedStays([], meant + one, MeantTail(rest), a, b);
      ApartBefore(read + led, ReadTail(rest), a, b);
      assert [] + (meant + one) == meant + one;
    } else {
      ChildStands(read, meant, c);
      NotEmptyWith(read, c, meant);
      a, b := PairInList(read + led, meant + one, |read|, BareOr(c), rest);
    }
  }

  lemma NotEmptyWith(read: seq<Part>, c: Condition, meant: seq<Part>)
    requires ReadParts(c) != [] && MeantParts(c) != []
    ensures read + Led(c.logic.LogicOr?, ReadParts(c)) != [] && meant + AsOne(c, MeantParts(c)) != []
  {
    hide ReadParts, MeantParts, Whole, SqlOf;
    assert |AsOne(c, MeantParts(c))| > 0 && |Led(c.logic.LogicOr?, ReadParts(c))| > 0;
    hide AsOne, Led;
  }

  lemma ApartBefore(parts: seq<Part>, after: seq<Part>, a: Bound, b: Bound)
    requires Apart(parts, a, b)
    ensures Apart(parts + after, a, b)
  {
    if parts != [] {
      ApartStays([], parts[0].or, parts, after, a, b);
      assert [] + Led(parts[0].or, parts) == parts;
    }
  }

  lemma OneIsLinked(c: Condition, a: Bound, b: Bound)
    requires MeantParts(c) != [] && Gate(Whole(MeantParts(c)), true, a, b)
    ensures Linked(AsOne(c, MeantParts(c)), a, b)
  {
    hide MeantParts, Whole, SqlOf, Gate;
    assert Gate(AsOne(c, MeantParts(c))[0].formula, true, a, b);
  }

  lemma {:induction false} PairInTree(c: Condition) returns (a: Bound, b: Bound)
    requires SqlOf(c).Sql? && !Guarded(c)
    ensures MeantParts(c) != [] && Gate(Whole(MeantParts(c)), true, a, b) && Apart(ReadParts(c), a, b)
    decreases c, 1
  {
    BuiltParts(c);
    OwnStands(c);
    a, b := PairInList(OwnParts(c), OwnParts(c), 0, false, c.children);
    hide *;
    PairInNode(c, a, b);
  }

  lemma OwnStands(c: Condition)
    requires BuildSingleCondition(c).Sql?
    ensures OwnParts(c) == [] <==> OwnIsEmpty(c)
    ensures OwnParts(c) != [] ==> Stands(OwnParts(c), OwnParts(c), 0, false)
  {}

  lemma PairInNode(c: Condition, a: Bound, b: Bound)
    requires Linked(MeantParts(c), a, b) && Apart(InnerParts(c), a, b)
    ensures MeantParts(c) != [] && Gate(Whole(MeantParts(c)), true, a, b) && Apart(ReadParts(c), a, b)
  {
    ReadPartsMeans(c);
    hide MeantParts, ReadParts, InnerParts, Grouped, SqlOf, Whole, Gate;
    LinkedMeet(MeantParts(c), a, b);
    if InnerParts(c) != [] && Grouped(c) {
      ApartMeet(InnerParts(c), a, b);
      assert Gate(ReadParts(c)[0].formula, false, a, b);
    }
  }

  // ----- Main result -----

  /** The SQL reads as the tree means. */
  ghost predicate ReadsAsMeant(env: Env, c: Condition)
    requires SqlOf(c).Sql?
  {
    Meaning(env, c).Some? && ReadExpr(env, SqlOf(c).tokens, SqlOf(c).args) == Read(Meaning(env, c).value, [], [])
  }

  lemma ReadsAsMeantMeans(env: Env, c: Condition)
    requires SqlOf(c).Sql? && Speaks(c)
    ensures MeantParts(c) != [] && ReadParts(c) != []
    ensures ReadsAsMeant(env, c) <==> Eval(env, Whole(MeantParts(c))) == Eval(env, Whole(ReadParts(c)))
  {
    PartsTogether(c);
    PartsMean(env, c);
    ReadsAsParts(env, c);
    hide Meaning, MeantParts, ReadParts, SqlOf, Whole, Eval, ReadExpr;
  }

  /** For every tree, nothing is printed exactly when the tree says nothing. */
  lemma PrintsWhatSaysSomething(env: Env, c: Condition)
    requires SqlOf(c).Sql?
    ensures Speaks(c) <==> Meaning(env, c).Some?
  {
    PartsTogether(c);
    PartsMean(env, c);
    hide Meaning, MeantParts, SqlOf, Whole;
  }

  /** A tree that is not guarded, and in which no predicate is repeated, is misread for some truth of its
      predicates. */
  lemma UnguardedIsMisread(c: Condition) returns (s: set<Bound>)
    requires SqlOf(c).Sql? && Speaks(c) && NoRepeats(Leaves(c)) && !Guarded(c)
    ensures !ReadsAsMeant(Holding(s), c)
  {
    var a, b := PairInTree(c);
    MeantNames(c);
    ReadNames(c);
    PartsTogether(c);
    hide *;
    NamesOfWhole(MeantParts(c));
    NamesOfWhole(ReadParts(c));
    ApartMeet(ReadParts(c), a, b);
    s := MeetingsTellApart(Whole(MeantParts(c)), Whole(ReadParts(c)), a, b);
    ReadsAsMeantMeans(Holding(s), c);
  }

  /** The SQL of a tree in which no predicate is repeated has the meaning of the tree, for every truth of its
      predicates, if and only if no bare OR stands beside an AND. */
  lemma SqlIsExactOnGuardedTrees(c: Condition)
    requires SqlOf(c).Sql? && Speaks(c) && NoRepeats(Leaves(c))
    ensures (forall env: Env :: ReadsAsMeant(env, c)) <==> Guarded(c)
  {
    if Guarded(c) {
      forall env: Env ensures ReadsAsMeant(env, c) {
        GuardedIsRead(env, c);
      }
    } else {
      var s := UnguardedIsMisread(c);
    }
  }

  lemma GuardedIsRead(env: Env, c: Condition)
    requires SqlOf(c).Sql? && Speaks(c) && Guarded(c)
    ensures ReadsAsMeant(env, c)
  {
    hide Meaning, SqlOf, ReadExpr, Guarded, Speaks;
    SqlKeepsTheMeaning(env, c);
  }
}
