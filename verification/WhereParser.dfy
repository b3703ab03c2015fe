/** The parser of WHERE conditions (`tool/cmd/gen-go-db/excel/parser_where.go`). */
module WhereParser {
  import opened Options
  import opened WhereLexer

  /** A condition: an expression, or conditions joined by an operator. */
  datatype Condition = Condition(expr: string, operator: string, conditions: seq<Condition>)

  datatype Clause = Clause(operator: string, conditions: seq<Condition>)

  predicate IsOperator(t: Token) {
    t.And? || t.Or?
  }

  function OperatorName(t: Token): string
    requires IsOperator(t)
  {
    if t.And? then "AND" else "OR"
  }

  // ----- The grammar, on tokens -----

  function Append(conditions: seq<Condition>, c: Option<Condition>): seq<Condition> {
    if c.Some? then conditions + [c.value] else conditions
  }

  function ParseExpr(ts: seq<Token>): (r: (Clause, seq<Token>))
    ensures |r.1| <= |ts|
    decreases |ts|, 2
  {
    var (c, rest) := ParseCond(ts);
    ParseMore(Clause("AND", Append([], c)), rest)
  }

  /** The operators and conditions that follow a condition; the last operator is the one that counts. */
  function ParseMore(clause: Clause, ts: seq<Token>): (r: (Clause, seq<Token>))
    ensures |r.1| <= |ts|
    decreases |ts|, 1
  {
    if ts != [] && IsOperator(ts[0]) then
      var (c, rest) := ParseCond(ts[1..]);
      ParseMore(Clause(OperatorName(ts[0]), Append(clause.conditions, c)), rest)
    else (clause, ts)
  }

  function ParseCond(ts: seq<Token>): (r: (Option<Condition>, seq<Token>))
    ensures |r.1| <= |ts|
    decreases |ts|, 0
  {
    if ts == [] then (None, ts)
    else match ts[0]
      case LParen =>
        var (clause, rest) := ParseExpr(ts[1..]);
        (Some(Condition("", clause.operator, clause.conditions)),
         if rest != [] && rest[0].RParen? then rest[1..] else rest)
      case Expr(text) => (Some(Condition(text, "", [])), ts[1..])
      case _ => (None, ts)
  }

  /** What parsing makes of a text; nothing of a blank one. */
  function Parsed(text: string): Option<Clause> {
    var trimmed := TrimSpace(text);
    if trimmed == "" then None else Some(ParseExpr(Tokens(trimmed, 0)).0)
  }

  // ----- The parser of the source -----

  class Parser {
    const lexer: Lexer
    var curr: Option<Token>

    ghost predicate Valid()
      reads this, lexer
    {
      lexer.Valid()
    }

    /** The tokens not yet parsed. */
    ghost function Ahead(): seq<Token>
      reads this, lexer
      requires Valid()
    {
      if curr.None? then [] else [curr.value] + Tokens(lexer.runes, lexer.pos)
    }

    constructor (lexer: Lexer)
      requires lexer.Valid()
      modifies lexer
      ensures Valid() && this.lexer == lexer
      ensures Ahead() == Tokens(lexer.runes, old(lexer.pos))
    {
      this.lexer := lexer;
      curr := None;
      new;
      ReadToken();
    }

    method ReadToken()
      requires Valid()
      modifies this, lexer
      ensures Valid() && Ahead() == Tokens(lexer.runes, old(lexer.pos))
    {
      hide NextToken;
      var next := lexer.Next();
      curr := if next.Got? then Some(next.token) else None;
    }

    /** Goes on to the next token. */
    method Advance()
      requires Valid() && curr.Some?
      modifies this, lexer
      ensures Valid() && Ahead() == old(Ahead())[1..]
    {
      ReadToken();
    }

    method ParseExpression() returns (clause: Clause)
      requires Valid()
      modifies this, lexer
      ensures Valid() && (clause, Ahead()) == ParseExpr(old(Ahead()))
      decreases |Ahead()|, 1
    {
      hide Tokens;
      clause := Clause("AND", []);
      var cond := ParseCondition();
      if cond.Some? {
        clause := clause.(conditions := clause.conditions + [cond.value]);
      }
      while curr.Some? && IsOperator(curr.value)
        invariant Valid() && |Ahead()| <= |old(Ahead())|
        invariant ParseMore(clause, Ahead()) == ParseExpr(old(Ahead()))
        decreases |Ahead()|
      {
        clause := clause.(operator := OperatorName(curr.value));
        Advance();
        cond := ParseCondition();
        if cond.Some? {
          clause := clause.(conditions := clause.conditions + [cond.value]);
        }
      }
    }

    method ParseCondition() returns (cond: Option<Condition>)
      requires Valid()
      modifies this, lexer
      ensures Valid() && (cond, Ahead()) == ParseCond(old(Ahead()))
      decreases |Ahead()|, 0
    {
      hide Tokens;
      if curr.None? {
        return None;
      }
      if curr.value.LParen? {
        Advance();
        var nested := ParseExpression();
        if curr.Some? && curr.value.RParen? {
          Advance();
        }
        return Some(Condition("", nested.operator, nested.conditions));
      }
      if curr.value.Expr? {
        var expr := curr.value.text;
        Advance();
        return Some(Condition(expr, "", []));
      }
      return None;
    }
  }

  method ParseWhereCondition(whereExpr: string) returns (r: Option<Clause>)
    ensures r == Parsed(whereExpr)
  {
    var trimmed := TrimSpace(whereExpr);
    if trimmed == "" {
      return None;
    }
    var lexer := new Lexer(trimmed);
    var parser := new Parser(lexer);
    var clause := parser.ParseExpression();
    return Some(clause);
  }
}
