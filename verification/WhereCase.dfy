/** Keywords are read in any case (`tool/cmd/gen-go-db/excel/parser_where.go`). */
module WhereCase {
  import opened Options
  import opened WhereParser
  import opened WhereScan
  import opened WhereRoundTrip
  import opened WhereMixed

  /** The same expression, but for the case in which its keywords are spelled. */
  predicate SameLeaf(l: Leaf, m: Leaf) {
    match l
    case Compare(_, _, _) => l == m
    case Between(column, _, low, _, high) => m.Between? && column == m.column && low == m.low && high == m.high
    case InList(column, within, param) =>
      m.InList? && column == m.column && param == m.param && |within| == |m.within|
  }

  ghost predicate SameExpr(e: string, f: string) {
    exists l, m :: ValidLeaf(l) && ValidLeaf(m) && LeafText(l) == e && LeafText(m) == f && SameLeaf(l, m)
  }

  /** The condition is written down as `p`: its operators, and the keywords in its expressions, in any case. */
  ghost predicate Respells(p: Phrase, c: Condition) {
    match p
    case Term(expr) => c.operator == "" && c.conditions == [] && SameExpr(expr, c.expr)
    case Group(first, others) =>
      && c.expr == "" && IsOperatorName(c.operator) && |c.conditions| == |others| + 1
      && (others == [] ==> c.operator == "AND")
      && Respells(first, c.conditions[0])
      && forall i :: 0 <= i < |others| ==> OperandRespells(others[i], c.operator, c.conditions[i + 1])
  }

  ghost predicate OperandRespells(o: Operand, op: string, c: Condition) {
    Spells(o.op, op) && Respells(o.phrase, c)
  }

  /** The same tree, but for the case of the keywords in its expressions. */
  ghost predicate SameTree(a: Condition, b: Condition) {
    && a.operator == b.operator && |a.conditions| == |b.conditions|
    && (if b.conditions == [] then SameExpr(a.expr, b.expr) else a.expr == b.expr == "")
    && forall i :: 0 <= i < |a.conditions| ==> SameTree(a.conditions[i], b.conditions[i])
  }

  lemma OperatorIs(op: string, w: string)
    requires IsOperatorName(op) && Spells(w, op)
    ensures (Spells(w, "OR") <==> op == "OR") && Connective(Spells(w, "OR")) == op
    ensures Spells(w, "AND") || Spells(w, "OR")
  {}

  lemma {:induction false} RespelledIsWellWritten(p: Phrase, c: Condition)
    requires Respells(p, c)
    ensures WellWritten(p)
    decreases p
  {
    hide SameLeaf, ValidLeaf, LeafText, Spells;
    if p.Group? {
      RespelledIsWellWritten(p.first, c.conditions[0]);
      forall i | 0 <= i < |p.others|
        ensures (Spells(p.others[i].op, "AND") || p.others[i].Or()) && WellWritten(p.others[i].phrase)
      {
        assert OperandRespells(p.others[i], c.operator, c.conditions[i + 1]);
        OperatorIs(c.operator, p.others[i].op);
        assert p.others[i].phrase < p.others[i];
        RespelledIsWellWritten(p.others[i].phrase, c.conditions[i + 1]);
      }
    }
  }

  lemma {:induction false} ParsedOthersAt(others: seq<Operand>, i: nat)
    requires i < |others|
    ensures ParsedOthers(others)[i] == ParsedPhrase(others[i].phrase)
    decreases i
  {
    hide ParsedPhrase;
    if i > 0 {
      ParsedOthersAt(others[1..], i - 1);
    }
  }

  lemma GroupIsSameTree(p: Phrase, c: Condition)
    requires p.Group? && c.expr == "" && |c.conditions| == |p.others| + 1
    requires c.operator == Connective(LastOr(p.others))
    requires SameTree(ParsedPhrase(p.first), c.conditions[0])
    requires forall i :: 0 <= i < |p.others| ==> SameTree(ParsedOthers(p.others)[i], c.conditions[i + 1])
    ensures SameTree(ParsedPhrase(p), c)
  {
    hide SameExpr, Connective, LastOr, ParsedOthers;
    var a := ParsedPhrase(p);
    forall i | 0 <= i < |a.conditions| ensures SameTree(a.conditions[i], c.conditions[i]) {
      assert i > 0 ==> a.conditions[i] == ParsedOthers(p.others)[i - 1];
      hide SameTree, ParsedPhrase;
    }
  }

  lemma GroupRespells(p: Phrase, c: Condition)
    requires p.Group? && Respells(p, c)
    ensures c.expr == "" && |c.conditions| == |p.others| + 1 && Respells(p.first, c.conditions[0])
    ensures forall i :: 0 <= i < |p.others| ==> Respells(p.others[i].phrase, c.conditions[i + 1])
    ensures c.operator == Connective(LastOr(p.others))
  {
    hide Spells, IsOperatorName, SameExpr;
    assert forall i :: 0 <= i < |p.others| ==> OperandRespells(p.others[i], c.operator, c.conditions[i + 1]);
    if p.others != [] {
      OperatorIs(c.operator, p.others[|p.others| - 1].op);
    }
  }

  lemma TermIsSameTree(p: Phrase, c: Condition)
    requires p.Term? && Respells(p, c)
    ensures SameTree(ParsedPhrase(p), c)
  {
    hide SameExpr;
  }

  lemma {:induction false} RespelledIsSameTree(p: Phrase, c: Condition)
    requires Respells(p, c)
    ensures SameTree(ParsedPhrase(p), c)
    decreases p
  {
    hide *;
    if p.Term? {
      TermIsSameTree(p, c);
    } else {
      GroupRespells(p, c);
      RespelledIsSameTree(p.first, c.conditions[0]);
      forall i | 0 <= i < |p.others| ensures SameTree(ParsedOthers(p.others)[i], c.conditions[i + 1]) {
        assert p.others[i].phrase < p.others[i];
        RespelledIsSameTree(p.others[i].phrase, c.conditions[i + 1]);
        ParsedOthersAt(p.others, i);
      }
      GroupIsSameTree(p, c);
    }
  }

  /** However the case of operators and keywords is chosen, the text of a tree is parsed into that tree, as the one
      element of an AND clause; its expressions keep the case they are written in. */
  lemma TreesParseInAnyCase(p: Phrase, c: Condition)
    requires Respells(p, c)
    ensures Parsed(PhraseText(p)) == Some(Clause("AND", [ParsedPhrase(p)])) && SameTree(ParsedPhrase(p), c)
  {
    hide Respells, SameTree, Parsed, PhraseText, ParsedPhrase, WellWritten;
    RespelledIsWellWritten(p, c);
    RespelledIsSameTree(p, c);
    LastOperatorCounts(p, []);
    NoOthers();
    assert ListTextOf(p, []) == PhraseText(p);
    assert [ParsedPhrase(p)] + [] == [ParsedPhrase(p)];
  }
}
