/** What the SQL of the builder means, read with AND binding tighter than OR (subclause 8.12 of SQL-92,
    ISO/IEC 9075:1992), against the meaning of the tree it was built from. */
module ClauseMeaning {
  import opened Options
  import opened ClauseBuilder
  import opened ClauseArgs
  import opened Formulas

  /** The truth of every predicate on its field with its arguments. */
  type Env = Bound -> Truth

  // ----- Reading SQL -----

  datatype Reading = Read(value: Truth, tokens: seq<Token>, args: seq<Value>) | Unreadable

  /** A search condition: terms joined by OR. Placeholders take the arguments from left to right. */
  function ReadExpr(env: Env, ts: seq<Token>, args: seq<Value>): (r: Reading)
    ensures r.Read? ==> |r.tokens| < |ts|
    decreases |ts|, 2
  {
    match ReadTerm(env, ts, args)
    case Unreadable => Unreadable
    case Read(v, rest, ra) => OrElse(env, v, rest, ra)
  }

  function OrElse(env: Env, v: Truth, rest: seq<Token>, ra: seq<Value>): (r: Reading)
    ensures r.Read? ==> |r.tokens| <= |rest|
    decreases |rest|, 3
  {
    if rest == [] || !rest[0].Or? then Read(v, rest, ra)
    else match ReadExpr(env, rest[1..], ra)
      case Unreadable => Unreadable
      case Read(w, rest', ra') => Read(Disjunction(v, w), rest', ra')
  }

  /** A boolean term: factors joined by AND. */
  function ReadTerm(env: Env, ts: seq<Token>, args: seq<Value>): (r: Reading)
    ensures r.Read? ==> |r.tokens| < |ts|
    decreases |ts|, 1
  {
    match ReadFactor(env, ts, args)
    case Unreadable => Unreadable
    case Read(v, rest, ra) => AndThen(env, v, rest, ra)
  }

  function AndThen(env: Env, v: Truth, rest: seq<Token>, ra: seq<Value>): (r: Reading)
    ensures r.Read? ==> |r.tokens| <= |rest|
    decreases |rest|, 3
  {
    if rest == [] || !rest[0].And? then Read(v, rest, ra)
    else match ReadTerm(env, rest[1..], ra)
      case Unreadable => Unreadable
      case Read(w, rest', ra') => Read(Conjunction(v, w), rest', ra')
  }

  /** A predicate, or a search condition in parentheses. */
  function ReadFactor(env: Env, ts: seq<Token>, args: seq<Value>): (r: Reading)
    ensures r.Read? ==> |r.tokens| < |ts|
    decreases |ts|, 0
  {
    if ts == [] then Unreadable
    else match ts[0]
      case Predicate(field, operator, n) =>
        if |args| < n then Unreadable else Read(env(Bound(field, operator, args[..n])), ts[1..], args[n..])
      case Open =>
        (match ReadExpr(env, ts[1..], args)
         case Unreadable => Unreadable
         case Read(v, rest, ra) => if rest != [] && rest[0].Close? then Read(v, rest[1..], ra) else Unreadable)
      case _ => Unreadable
  }

  // ----- The meaning of a tree -----

  datatype Item = Item(logic: Logic, value: Truth)

  /** The first run of items joined by AND. */
  function FirstRun(items: seq<Item>): Truth
    requires items != []
  {
    if |items| == 1 || items[1].logic.LogicOr? then items[0].value
    else Conjunction(items[0].value, FirstRun(items[1..]))
  }

  /** The items after the first run: the first of them is joined by OR. */
  function AfterRun(items: seq<Item>): (r: seq<Item>)
    requires items != []
    ensures |r| < |items|
  {
    if |items| == 1 || items[1].logic.LogicOr? then items[1..] else AfterRun(items[1..])
  }

  /** The OR of the runs joined by AND. */
  function ValueOf(items: seq<Item>): Truth
    requires items != []
    decreases |items|
  {
    var rest := AfterRun(items);
    if rest == [] then FirstRun(items) else Disjunction(FirstRun(items), ValueOf(rest))
  }

  /** The predicate on a condition's own field; an empty list says nothing. */
  function Own(env: Env, c: Condition): Option<Truth> {
    if c.field == "" || ((c.operator.In? || c.operator.NotIn?) && c.value == List([])) then None
    else Some(env(Bound(c.field, c.operator, if IsComparison(c.operator) || !c.value.List? then [c.value] else c.value.values)))
  }

  /** What a condition says: its own predicate and its children, each joined to what comes before it.
      Nothing if there are none. */
  function Meaning(env: Env, c: Condition): Option<Truth>
    decreases c, 1
  {
    var own := Own(env, c);
    var items := (if own.Some? then [Item(Unset, own.value)] else []) + Items(env, c.children);
    if items == [] then None else Some(ValueOf(items))
  }

  function Items(env: Env, cs: seq<Condition>): seq<Item>
    decreases cs, 0
  {
    if cs == [] then []
    else
      var m := Meaning(env, cs[0]);
      (if m.Some? then [Item(cs[0].logic, m.value)] else []) + Items(env, cs[1..])
  }

  // ----- How text reads in context -----

  ghost predicate FactorLike(env: Env, ts: seq<Token>, args: seq<Value>, v: Truth) {
    forall rest, ra :: ReadFactor(env, ts + rest, args + ra) == Read(v, rest, ra)
  }

  ghost predicate TermLike(env: Env, ts: seq<Token>, args: seq<Value>, v: Truth) {
    forall rest, ra :: ReadTerm(env, ts + rest, args + ra) == AndThen(env, v, rest, ra)
  }

  predicate NoAndNext(rest: seq<Token>) {
    rest == [] || !rest[0].And?
  }

  ghost predicate ExprLike(env: Env, ts: seq<Token>, args: seq<Value>, v: Truth) {
    forall rest, ra :: NoAndNext(rest) ==> ReadExpr(env, ts + rest, args + ra) == OrElse(env, v, rest, ra)
  }

  lemma FactorIsTerm(env: Env, ts: seq<Token>, args: seq<Value>, v: Truth)
    requires FactorLike(env, ts, args, v)
    ensures TermLike(env, ts, args, v)
  {
    hide ReadFactor;
    forall rest, ra ensures ReadTerm(env, ts + rest, args + ra) == AndThen(env, v, rest, ra) {
      assert ReadFactor(env, ts + rest, args + ra) == Read(v, rest, ra);
    }
  }

  lemma TermIsExpr(env: Env, ts: seq<Token>, args: seq<Value>, v: Truth)
    requires TermLike(env, ts, args, v)
    ensures ExprLike(env, ts, args, v)
  {
    hide ReadTerm;
    forall rest, ra | NoAndNext(rest) ensures ReadExpr(env, ts + rest, args + ra) == OrElse(env, v, rest, ra) {
      assert ReadTerm(env, ts + rest, args + ra) == AndThen(env, v, rest, ra);
    }
  }

  lemma PredicateIsFactor(env: Env, field: string, o: Operator, args: seq<Value>)
    ensures FactorLike(env, [Predicate(field, o, |args|)], args, env(Bound(field, o, args)))
  {
    var ts := [Predicate(field, o, |args|)];
    forall rest, ra ensures ReadFactor(env, ts + rest, args + ra) == Read(env(Bound(field, o, args)), rest, ra) {
      assert (ts + rest)[1..] == rest && (args + ra)[..|args|] == args && (args + ra)[|args|..] == ra;
    }
  }

  lemma ParenthesesAreFactor(env: Env, ts: seq<Token>, args: seq<Value>, v: Truth)
    requires ExprLike(env, ts, args, v)
    ensures FactorLike(env, [Open] + ts + [Close], args, v)
  {
    hide ReadExpr;
    var whole := [Open] + ts + [Close];
    forall rest, ra ensures ReadFactor(env, whole + rest, args + ra) == Read(v, rest, ra) {
      var behind := [Close] + rest;
      assert (whole + rest)[1..] == ts + behind && behind[1..] == rest;
      assert NoAndNext(behind);
      assert ReadExpr(env, ts + behind, args + ra) == OrElse(env, v, behind, ra);
    }
  }

  lemma AndJoinAt(env: Env, p: seq<Token>, a: seq<Value>, v: Truth, q: seq<Token>, b: seq<Value>, w: Truth,
                  rest: seq<Token>, ra: seq<Value>, behind: seq<Token>)
    requires TermLike(env, p, a, v) && TermLike(env, q, b, w) && behind == [And] + (q + rest)
    ensures ReadTerm(env, p + behind, a + (b + ra)) == AndThen(env, Conjunction(v, w), rest, ra)
  {
    hide ReadTerm;
    assert behind[1..] == q + rest;
    assert ReadTerm(env, p + behind, a + (b + ra)) == AndThen(env, v, behind, b + ra);
    assert ReadTerm(env, q + rest, b + ra) == AndThen(env, w, rest, ra);
  }

  lemma AndJoin(env: Env, p: seq<Token>, a: seq<Value>, v: Truth, q: seq<Token>, b: seq<Value>, w: Truth)
    requires TermLike(env, p, a, v) && TermLike(env, q, b, w)
    ensures TermLike(env, p + ([And] + q), a + b, Conjunction(v, w))
  {
    hide ReadTerm, AndThen;
    forall rest, ra
      ensures ReadTerm(env, p + ([And] + q) + rest, a + b + ra) == AndThen(env, Conjunction(v, w), rest, ra)
    {
      var behind := [And] + (q + rest);
      assert p + ([And] + q) + rest == p + behind && a + b + ra == a + (b + ra);
      AndJoinAt(env, p, a, v, q, b, w, rest, ra, behind);
    }
  }

  lemma OrJoinAt(env: Env, p: seq<Token>, a: seq<Value>, v: Truth, q: seq<Token>, b: seq<Value>, w: Truth,
                 rest: seq<Token>, ra: seq<Value>, behind: seq<Token>)
    requires ExprLike(env, p, a, v) && ExprLike(env, q, b, w) && NoAndNext(rest) && behind == [Or] + (q + rest)
    ensures ReadExpr(env, p + behind, a + (b + ra)) == OrElse(env, Disjunction(v, w), rest, ra)
  {
    hide ReadExpr;
    assert behind[1..] == q + rest;
    assert ReadExpr(env, p + behind, a + (b + ra)) == OrElse(env, v, behind, b + ra);
    assert ReadExpr(env, q + rest, b + ra) == OrElse(env, w, rest, ra);
  }

  lemma OrJoin(env: Env, p: seq<Token>, a: seq<Value>, v: Truth, q: seq<Token>, b: seq<Value>, w: Truth)
    requires ExprLike(env, p, a, v) && ExprLike(env, q, b, w)
    ensures ExprLike(env, p + ([Or] + q), a + b, Disjunction(v, w))
  {
    hide ReadExpr, OrElse;
    forall rest, ra | NoAndNext(rest)
      ensures ReadExpr(env, p + ([Or] + q) + rest, a + b + ra) == OrElse(env, Disjunction(v, w), rest, ra)
    {
      var behind := [Or] + (q + rest);
      assert p + ([Or] + q) + rest == p + behind && a + b + ra == a + (b + ra);
      OrJoinAt(env, p, a, v, q, b, w, rest, ra, behind);
    }
  }

  lemma WholeReads(env: Env, ts: seq<Token>, args: seq<Value>, v: Truth)
    requires ExprLike(env, ts, args, v)
    ensures ReadExpr(env, ts, args) == Read(v, [], [])
  {
    hide ReadExpr;
    assert ts + [] == ts && args + [] == args && NoAndNext([]);
    assert ReadExpr(env, ts + [], args + []) == OrElse(env, v, [], []);
  }
}
