/** The SQL of a tree of conditions and the arguments of its placeholders
    (`contribute/agdb/conditonwhere/where_clause_builder.go`). */
module ClauseBuilder {

  datatype Value = Scalar(id: int) | List(values: seq<Value>)

  datatype Operator = Eq | Neq | Gt | Lt | Gte | Lte | In | NotIn | Between | Unsupported(name: string)

  datatype Logic = Unset | LogicAnd | LogicOr

  /** A condition on a field, a group of conditions, or both; `logic` joins it to what comes before it. */
  datatype Condition = Condition(
    field: string,
    operator: Operator,
    value: Value,
    logic: Logic,
    children: seq<Condition>)

  /** The pieces of the SQL text. A predicate holds one placeholder for each argument it takes. */
  datatype Token =
    | Predicate(field: string, operator: Operator, placeholders: nat)
    | And
    | Or
    | Open
    | Close

  datatype Error = NoListForIn | NoPairForBetween | UnsupportedOperator

  /** The text, no tokens standing for an empty one, and the arguments. */
  datatype Built = Sql(tokens: seq<Token>, args: seq<Value>) | Failed(error: Error)

  const NOTHING := Sql([], [])

  predicate IsComparison(o: Operator) {
    o.Eq? || o.Neq? || o.Gt? || o.Lt? || o.Gte? || o.Lte?
  }

  /** The SQL of a condition's own field. */
  function BuildSingleCondition(c: Condition): Built {
    if c.field == "" then NOTHING
    else if IsComparison(c.operator) then Sql([Predicate(c.field, c.operator, 1)], [c.value])
    else if c.operator.In? || c.operator.NotIn? then
      if !c.value.List? then Failed(NoListForIn)
      else if c.value.values == [] then NOTHING
      else Sql([Predicate(c.field, c.operator, |c.value.values|)], c.value.values)
    else if c.operator.Between? then
      if !c.value.List? || |c.value.values| != 2 then Failed(NoPairForBetween)
      else Sql([Predicate(c.field, c.operator, 2)], c.value.values)
    else Failed(UnsupportedOperator)
  }

  function LogicToken(l: Logic): Token {
    if l.LogicOr? then Or else And
  }

  /** What the loop over the children has gathered: the text without outer parentheses, and which
      operators join its parts. */
  datatype Gathered = Gathered(tokens: seq<Token>, args: seq<Value>, hasAnd: bool, hasOr: bool) | Broken(error: Error)

  function Start(own: Built): Gathered {
    match own
    case Failed(error) => Broken(error)
    case Sql(tokens, args) => Gathered(tokens, args, false, false)
  }

  /** A part joins those before it by its own operator; an empty one is left out. */
  function Join(g: Gathered, logic: Logic, part: Built): Gathered
    requires g.Gathered?
  {
    match part
    case Failed(error) => Broken(error)
    case Sql(tokens, args) =>
      if tokens == [] then g
      else if g.tokens == [] then Gathered(tokens, g.args + args, g.hasAnd, g.hasOr)
      else Gathered(g.tokens + ([LogicToken(logic)] + tokens), g.args + args,
                    g.hasAnd || !logic.LogicOr?, g.hasOr || logic.LogicOr?)
  }

  function Gather(g: Gathered, cs: seq<Condition>): Gathered
    decreases cs, 0
  {
    if g.Broken? || cs == [] then g
    else Gather(Join(g, cs[0].logic, SqlOf(cs[0])), cs[1..])
  }

  /** A group is always put in parentheses; a condition with children only when AND and OR meet in it. */
  function SqlOf(c: Condition): Built
    decreases c, 1
  {
    match Gather(Start(BuildSingleCondition(c)), c.children)
    case Broken(error) => Failed(error)
    case Gathered(tokens, args, hasAnd, hasOr) =>
      if tokens == [] then NOTHING
      else if (c.field == "" && c.children != []) || (hasAnd && hasOr) then Sql([Open] + tokens + [Close], args)
      else Sql(tokens, args)
  }

  // ----- The loops of the source -----

  /** Text begins with a predicate or a parenthesis, never with an operator. */
  lemma {:induction false} SqlBegins(c: Condition)
    ensures SqlOf(c).Sql? && SqlOf(c).tokens != [] ==> var t := SqlOf(c).tokens[0]; t.Predicate? || t.Open?
    decreases c, 1
  {
    hide Gather;
    GatherBegins(Start(BuildSingleCondition(c)), c.children);
  }

  lemma {:induction false} GatherBegins(g: Gathered, cs: seq<Condition>)
    requires g.Gathered? && g.tokens != [] ==> g.tokens[0].Predicate? || g.tokens[0].Open?
    ensures var r := Gather(g, cs);
      r.Gathered? && r.tokens != [] ==> r.tokens[0].Predicate? || r.tokens[0].Open?
    decreases cs, 0
  {
    hide SqlOf;
    if g.Gathered? && cs != [] {
      SqlBegins(cs[0]);
      GatherBegins(Join(g, cs[0].logic, SqlOf(cs[0])), cs[1..]);
    }
  }

  /** The parts put after one another. */
  function Concat(parts: seq<seq<Token>>): seq<Token> {
    if parts == [] then [] else Concat(parts[..|parts| - 1]) + parts[|parts| - 1]
  }

  lemma ConcatOne(parts: seq<seq<Token>>, part: seq<Token>)
    ensures Concat(parts + [part]) == Concat(parts) + part
  {
    assert (parts + [part])[..|parts|] == parts;
  }

  /** The loop's variables are what was gathered. */
  predicate Holds(g: Gathered, parts: seq<seq<Token>>, args: seq<Value>) {
    && g.Gathered? && g.tokens == Concat(parts) && g.args == args
    && (g.hasAnd <==> [And] in parts) && (g.hasOr <==> [Or] in parts)
    && (parts == [] <==> g.tokens == [])
  }

  lemma FirstPart(g: Gathered, logic: Logic, child: Built, args: seq<Value>)
    requires Holds(g, [], args) && child.Sql? && child.tokens != []
    requires child.tokens[0].Predicate? || child.tokens[0].Open?
    ensures Holds(Join(g, logic, child), [child.tokens], args + child.args)
  {
    ConcatOne([], child.tokens);
  }

  lemma NextPart(g: Gathered, logic: Logic, child: Built, parts: seq<seq<Token>>, args: seq<Value>)
    requires Holds(g, parts, args) && parts != [] && child.Sql? && child.tokens != []
    requires child.tokens[0].Predicate? || child.tokens[0].Open?
    ensures Holds(Join(g, logic, child), parts + [[LogicToken(logic)]] + [child.tokens], args + child.args)
  {
    ConcatOne(parts, [LogicToken(logic)]);
    ConcatOne(parts + [[LogicToken(logic)]], child.tokens);
    hide Concat;
    assert Concat(parts) + ([LogicToken(logic)] + child.tokens) == Concat(parts) + [LogicToken(logic)] + child.tokens;
  }

  /** Whether AND and OR both stand among the parts. */
  method NeedParentheses(parts: seq<seq<Token>>) returns (r: bool)
    ensures r <==> [Or] in parts && [And] in parts
  {
    var hasOr, hasAnd := false, false;
    for i := 0 to |parts|
      invariant hasOr <==> [Or] in parts[..i]
      invariant hasAnd <==> [And] in parts[..i]
    {
      if parts[i] == [Or] {
        hasOr := true;
      }
      if parts[i] == [And] {
        hasAnd := true;
      }
    }
    return hasOr && hasAnd;
  }

  /** The loop over the children, the same in the source for groups and for conditions with children. */
  method BuildChildren(c: Condition, parts0: seq<seq<Token>>, args0: seq<Value>, ghost g0: Gathered)
    returns (parts: seq<seq<Token>>, args: seq<Value>, error: Built, ghost g: Gathered)
    requires Holds(g0, parts0, args0)
    ensures g == Gather(g0, c.children)
    ensures if error == NOTHING then Holds(g, parts, args) else g.Broken? && error == Failed(g.error)
    decreases c, 0
  {
    hide SqlOf, Concat;
    parts, args, g := parts0, args0, g0;
    for i := 0 to |c.children|
      invariant Holds(g, parts, args)
      invariant Gather(g, c.children[i..]) == Gather(g0, c.children)
    {
      var child := BuildWhereCondition(c.children[i]);
      assert c.children[i..][1..] == c.children[i + 1..];
      if child.Failed? {
        g := Gather(g, c.children[i..]);
        return parts, args, child, g;
      }
      SqlBegins(c.children[i]);
      if child.tokens != [] {
        if parts != [] {
          NextPart(g, c.children[i].logic, child, parts, args);
          parts := parts + [[LogicToken(c.children[i].logic)]];
        } else {
          FirstPart(g, c.children[i].logic, child, args);
          assert parts + [child.tokens] == [child.tokens];
        }
        parts := parts + [child.tokens];
        args := args + child.args;
      }
      g := Join(g, c.children[i].logic, child);
    }
    error := NOTHING;
  }

  method BuildNestedGroup(c: Condition) returns (r: Built)
    requires c.field == "" && c.children != []
    ensures r == SqlOf(c)
    decreases c, 1
  {
    hide Gather;
    var parts, args, error;
    ghost var g;
    parts, args, error, g := BuildChildren(c, [], [], Gathered([], [], false, false));
    if error != NOTHING {
      return error;
    }
    if parts == [] {
      return NOTHING;
    }
    return Sql([Open] + Concat(parts) + [Close], args);
  }

  method BuildWhereCondition(c: Condition) returns (r: Built)
    ensures r == SqlOf(c)
    decreases c, 2
  {
    hide Gather;
    if c.field == "" && c.children != [] {
      r := BuildNestedGroup(c);
      return;
    }
    var own := BuildSingleCondition(c);
    if own.Failed? {
      BrokenStays(own.error, c.children);
      return own;
    }
    var parts: seq<seq<Token>> := if own.tokens != [] then [own.tokens] else [];
    ConcatOne([], own.tokens);
    var args, error;
    ghost var g;
    parts, args, error, g := BuildChildren(c, parts, own.args, Start(own));
    if error != NOTHING {
      return error;
    }
    if parts == [] {
      return NOTHING;
    }
    var both := NeedParentheses(parts);
    return Sql(if both then [Open] + Concat(parts) + [Close] else Concat(parts), args);
  }

  lemma BrokenStays(error: Error, cs: seq<Condition>)
    ensures Gather(Broken(error), cs) == Broken(error)
  {}
}
