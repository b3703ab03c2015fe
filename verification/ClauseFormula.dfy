/** The parts of a WHERE clause with their text. */
module ClauseFormula {
  import opened ClauseBuilder
  import opened ClauseMeaning
  import opened ClauseArgs
  import opened Formulas

  /** What a clause, or a part of it, says. */
  type Sentence = Formula<Bound>

  /** A part of a list, with its text. */
  type Part = Joined<Bound, Built>

  // ----- The text of parts -----

  function OperatorToken(or: bool): Token {
    if or then Or else And
  }

  /** The text of parts behind others. */
  function Spell(parts: seq<Part>): seq<Token> {
    if parts == [] || parts[0].text.Failed? then []
    else [OperatorToken(parts[0].or)] + parts[0].text.tokens + Spell(parts[1..])
  }

  function SpellArgs(parts: seq<Part>): seq<Value> {
    if parts == [] || parts[0].text.Failed? then [] else parts[0].text.args + SpellArgs(parts[1..])
  }

  /** The text of parts with none before them. */
  function Text(parts: seq<Part>): seq<Token> {
    if parts == [] || parts[0].text.Failed? then [] else parts[0].text.tokens + Spell(parts[1..])
  }

  ghost predicate AllFactors(env: Env, parts: seq<Part>) {
    forall i :: 0 <= i < |parts| ==> IsFactor(env, parts[i])
  }

  ghost predicate IsFactor(env: Env, part: Part) {
    part.text.Sql? && FactorLike(env, part.text.tokens, part.text.args, Eval(env, part.formula))
  }

  predicate AllSpelled(parts: seq<Part>) {
    forall i :: 0 <= i < |parts| ==> parts[i].text.Sql?
  }

  lemma {:induction false} SpellJoined(p: seq<Part>, q: seq<Part>)
    requires AllSpelled(p)
    ensures Spell(p + q) == Spell(p) + Spell(q) && SpellArgs(p + q) == SpellArgs(p) + SpellArgs(q)
    decreases |p|
  {
    if p == [] {
      assert p + q == q && [] + Spell(q) == Spell(q) && [] + SpellArgs(q) == SpellArgs(q);
    } else {
      assert (p + q)[1..] == p[1..] + q;
      SpellJoined(p[1..], q);
      var ts, args := [OperatorToken(p[0].or)] + p[0].text.tokens, p[0].text.args;
      assert ts + (Spell(p[1..]) + Spell(q)) == ts + Spell(p[1..]) + Spell(q);
      assert args + (SpellArgs(p[1..]) + SpellArgs(q)) == args + SpellArgs(p[1..]) + SpellArgs(q);
    }
  }

  /** A term with parts behind it reads as they are joined. */
  lemma {:induction false} BehindIsRead(env: Env, ts: seq<Token>, args: seq<Value>, run: Sentence, parts: seq<Part>)
    requires TermLike(env, ts, args, Eval(env, run)) && AllFactors(env, parts)
    ensures ExprLike(env, ts + Spell(parts), args + SpellArgs(parts), Eval(env, Behind(run, parts)))
    decreases |parts|
  {
    hide TermLike, ExprLike, FactorLike;
    if parts == [] {
      TermIsExpr(env, ts, args, Eval(env, run));
      assert ts + [] == ts && args + [] == args;
    } else {
      var p, rest := parts[0], parts[1..];
      var q, b, w := p.text.tokens, p.text.args, Eval(env, p.formula);
      assert IsFactor(env, p);
      FactorIsTerm(env, q, b, w);
      if p.or {
        TermIsExpr(env, ts, args, Eval(env, run));
        BehindIsRead(env, q, b, p.formula, rest);
        OrJoin(env, ts, args, Eval(env, run), q + Spell(rest), b + SpellArgs(rest), Eval(env, Behind(p.formula, rest)));
        assert ts + Spell(parts) == ts + ([Or] + (q + Spell(rest)));
        assert args + SpellArgs(parts) == args + (b + SpellArgs(rest));
      } else {
        AndJoin(env, ts, args, Eval(env, run), q, b, w);
        BehindIsRead(env, ts + ([And] + q), args + b, Both(run, p.formula), rest);
        assert ts + Spell(parts) == ts + ([And] + q) + Spell(rest);
        assert args + SpellArgs(parts) == args + b + SpellArgs(rest);
      }
    }
  }

  lemma WholeIsRead(env: Env, parts: seq<Part>)
    requires parts != [] && AllFactors(env, parts)
    ensures ExprLike(env, Text(parts), SpellArgs(parts), Eval(env, Whole(parts)))
  {
    hide TermLike, ExprLike, FactorLike;
    var p := parts[0];
    assert IsFactor(env, p);
    FactorIsTerm(env, p.text.tokens, p.text.args, Eval(env, p.formula));
    BehindIsRead(env, p.text.tokens, p.text.args, p.formula, parts[1..]);
  }
}
