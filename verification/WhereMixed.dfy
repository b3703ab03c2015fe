/** Lists that mix AND and OR without parentheses, as they are written and as they are parsed
    (`tool/cmd/gen-go-db/excel/parser_where.go`). */
module WhereMixed {
  import opened Options
  import opened Formulas
  import opened WhereLexer
  import opened WhereParser
  import opened WhereScan
  import opened WhereRoundTrip

  // ----- What is written -----

  /** A condition as it is written: an expression, or a parenthesised list of conditions with an operator
      before each one but the first. */
  datatype Phrase = Term(expr: string) | Group(first: Phrase, others: seq<Operand>)

  datatype Operand = Operand(op: string, phrase: Phrase) {
    predicate Or() {
      Spells(op, "OR")
    }
  }

  /** The expressions are those of `Leaf`, and the operators AND and OR in any case. */
  ghost predicate WellWritten(p: Phrase) {
    match p
    case Term(expr) => exists l :: ValidLeaf(l) && LeafText(l) == expr
    case Group(first, others) => WellWritten(first) && AllWell(others)
  }

  ghost predicate AllWell(others: seq<Operand>) {
    forall i :: 0 <= i < |others| ==>
      assert others[i].phrase < others[i];
      (Spells(others[i].op, "AND") || others[i].Or()) && WellWritten(others[i].phrase)
  }

  function Connective(or: bool): (r: string)
    ensures IsOperatorName(r)
  {
    if or then "OR" else "AND"
  }

  function PhraseText(p: Phrase): string {
    match p
    case Term(expr) => expr
    case Group(first, others) => "(" + ((PhraseText(first) + OthersText(others)) + ")")
  }

  function OthersText(others: seq<Operand>): string {
    if others == [] then ""
    else
      assert others[0].phrase < others[0];
      " " + (others[0].op + (" " + (PhraseText(others[0].phrase) + OthersText(others[1..]))))
  }

  /** A list without parentheses around it. */
  function ListTextOf(first: Phrase, others: seq<Operand>): string {
    PhraseText(first) + OthersText(others)
  }

  // ----- What it says -----

  /** The operator that counts for the whole list: the last one. */
  function LastOr(others: seq<Operand>): bool {
    others != [] && others[|others| - 1].Or()
  }

  /** What is written, every list with AND binding tighter than OR (subclause 8.12 of SQL-92, ISO/IEC
      9075:1992); or every list joined by its last operator throughout. */
  function Reading(p: Phrase, lastCounts: bool): Formula<string> {
    match p
    case Term(expr) => Named(expr)
    case Group(first, others) =>
      Behind(Reading(first, lastCounts), PartsRead(others, lastCounts, LastOr(others)))
  }

  function PartsRead(others: seq<Operand>, lastCounts: bool, last: bool): (r: seq<Joined<string, ()>>)
    ensures |r| == |others|
  {
    if others == [] then []
    else
      assert others[0].phrase < others[0];
      [Part(if lastCounts then last else others[0].Or(), Reading(others[0].phrase, lastCounts), ())]
      + PartsRead(others[1..], lastCounts, last)
  }

  /** The expressions from left to right. */
  function Terms(p: Phrase): seq<string> {
    match p
    case Term(expr) => [expr]
    case Group(first, others) => Terms(first) + TermsOf(others)
  }

  function TermsOf(others: seq<Operand>): seq<string> {
    if others == [] then []
    else
      assert others[0].phrase < others[0];
      Terms(others[0].phrase) + TermsOf(others[1..])
  }

  /** No list, at any depth, mixes operators. */
  predicate Uniform(p: Phrase) {
    match p
    case Term(_) => true
    case Group(first, others) =>
      Uniform(first) && forall i :: 0 <= i < |others| ==> Uniform(others[i].phrase) && others[i].Or() == LastOr(others)
  }

  // ----- What the parser makes of it -----

  function ParsedPhrase(p: Phrase): Condition {
    match p
    case Term(expr) => Condition(expr, "", [])
    case Group(first, others) =>
      Condition("", Connective(LastOr(others)), [ParsedPhrase(first)] + ParsedOthers(others))
  }

  function ParsedOthers(others: seq<Operand>): (r: seq<Condition>)
    ensures |r| == |others|
  {
    if others == [] then []
    else
      assert others[0].phrase < others[0];
      [ParsedPhrase(others[0].phrase)] + ParsedOthers(others[1..])
  }

  /** What a parsed condition says: its expression, or its conditions joined by its operator. */
  function Says(c: Condition): Formula<string>
    decreases c, 1
  {
    if c.expr != "" || c.conditions == [] then Named(c.expr) else Whole(PartsOf(c.conditions, c.operator == "OR"))
  }

  function PartsOf(cs: seq<Condition>, or: bool): (r: seq<Joined<string, ()>>)
    ensures |r| == |cs|
    decreases cs, 0
  {
    if cs == [] then [] else [Part(or, Says(cs[0]), ())] + PartsOf(cs[1..], or)
  }

  function SaysClause(clause: Clause): Formula<string>
    requires clause.conditions != []
  {
    Whole(PartsOf(clause.conditions, clause.operator == "OR"))
  }

  // ----- The tokens of the text -----

  function PhraseTokens(p: Phrase): seq<Token> {
    match p
    case Term(expr) => [Expr(expr)]
    case Group(first, others) => [LParen] + (PhraseTokens(first) + OthersTokens(others)) + [RParen]
  }

  function OthersTokens(others: seq<Operand>): seq<Token> {
    if others == [] then []
    else
      assert others[0].phrase < others[0];
      [OperatorToken(Connective(others[0].Or()))] + (PhraseTokens(others[0].phrase) + OthersTokens(others[1..]))
  }

  lemma TermIsToken(s: string, i: nat, p: Phrase)
    requires p.Term? && WellWritten(p) && Reads(s, i, PhraseText(p)) && Follows(s, i + |PhraseText(p)|)
    ensures Tokens(s, i) == PhraseTokens(p) + Tokens(s, i + |PhraseText(p)|)
  {
    var l :| ValidLeaf(l) && LeafText(l) == p.expr;
    hide Tokens, Reads, Follows, ValidLeaf, LeafText;
    LeafIsToken(s, i, l, p.expr);
  }

  lemma GroupParts(p: Phrase)
    requires p.Group? && WellWritten(p)
    ensures WellWritten(p.first) && AllWell(p.others)
    ensures PhraseText(p) == "(" + (ListTextOf(p.first, p.others) + ")")
    ensures PhraseTokens(p) == [LParen] + (PhraseTokens(p.first) + OthersTokens(p.others)) + [RParen]
    ensures ParsedPhrase(p) ==
      Condition("", Connective(LastOr(p.others)), [ParsedPhrase(p.first)] + ParsedOthers(p.others))
  {
    hide AllWell, OthersText, OthersTokens, ParsedOthers;
  }

  lemma GroupSpelled(s: string, i: nat, v: string)
    requires Reads(s, i, "(" + (v + ")"))
    ensures |"(" + (v + ")")| == |v| + 2 && i + |v| + 1 < |s| && s[i] == '(' && s[i + |v| + 1] == ')'
    ensures Reads(s, i + 1, v) && Follows(s, i + 1 + |v|)
  {
    hide Reads;
    Parenthesised(s, i, v);
  }

  lemma OthersStep(others: seq<Operand>)
    requires others != [] && AllWell(others)
    ensures WellWritten(others[0].phrase) && AllWell(others[1..])
    ensures Spells(others[0].op, Connective(others[0].Or()))
    ensures OthersText(others) ==
      " " + (others[0].op + (" " + (PhraseText(others[0].phrase) + OthersText(others[1..]))))
    ensures OthersTokens(others) ==
      [OperatorToken(Connective(others[0].Or()))] + (PhraseTokens(others[0].phrase) + OthersTokens(others[1..]))
    ensures ParsedOthers(others) == [ParsedPhrase(others[0].phrase)] + ParsedOthers(others[1..])
  {
    hide WellWritten, PhraseText, PhraseTokens, ParsedPhrase, Spells;
  }

  lemma NoOthers()
    ensures OthersText([]) == "" && OthersTokens([]) == [] && ParsedOthers([]) == []
  {}

  lemma JoinLength(op: string, u: string, v: string)
    ensures |" " + (op + (" " + (u + v)))| == |op| + 2 + |u| + |v|
  {}

  /** The lexer reads a condition as its tokens, whatever operators its lists mix. */
  lemma {:induction false} TokensOfPhrase(s: string, i: nat, p: Phrase)
    requires WellWritten(p) && Reads(s, i, PhraseText(p)) && Follows(s, i + |PhraseText(p)|)
    ensures i + |PhraseText(p)| <= |s| && Tokens(s, i) == PhraseTokens(p) + Tokens(s, i + |PhraseText(p)|)
    decreases p, 1
  {
    hide *;
    FollowsInside(s, i + |PhraseText(p)|);
    if p.Term? {
      TermIsToken(s, i, p);
    } else {
      GroupParts(p);
      var v := ListTextOf(p.first, p.others);
      GroupSpelled(s, i, v);
      var e := i + 1 + |v|;
      ParenIsToken(s, i);
      TokensOfPhrases(s, i + 1, p.first, p.others);
      ParenIsToken(s, e);
      Chain(Tokens(s, i), Tokens(s, i + 1), Tokens(s, e), Tokens(s, e + 1),
            [LParen], PhraseTokens(p.first) + OthersTokens(p.others), [RParen]);
    }
  }

  lemma {:induction false} TokensOfPhrases(s: string, i: nat, first: Phrase, others: seq<Operand>)
    requires WellWritten(first) && AllWell(others)
    requires Reads(s, i, ListTextOf(first, others)) && Follows(s, i + |ListTextOf(first, others)|)
    ensures i + |ListTextOf(first, others)| <= |s|
    ensures Tokens(s, i) == PhraseTokens(first) + OthersTokens(others) + Tokens(s, i + |ListTextOf(first, others)|)
    decreases Group(first, others), 0
  {
    hide PhraseText, OthersText, PhraseTokens, OthersTokens, Tokens, Reads, Follows, WellWritten, AllWell;
    var j := i + |PhraseText(first)|;
    ReadsParts(s, i, PhraseText(first), OthersText(others));
    TokensOfOthers(s, j, others);
    TokensOfPhrase(s, i, first);
    TwoJoined(Tokens(s, i), Tokens(s, j), PhraseTokens(first), OthersTokens(others), Tokens(s, j + |OthersText(others)|));
  }

  lemma TwoJoined<T>(t0: seq<T>, t1: seq<T>, a: seq<T>, b: seq<T>, t2: seq<T>)
    requires t0 == a + t1 && t1 == b + t2
    ensures t0 == a + b + t2
  {}

  lemma {:induction false} TokensOfOthers(s: string, i: nat, others: seq<Operand>)
    requires AllWell(others) && Reads(s, i, OthersText(others)) && Follows(s, i + |OthersText(others)|)
    ensures Follows(s, i) && i + |OthersText(others)| <= |s|
    ensures Tokens(s, i) == OthersTokens(others) + Tokens(s, i + |OthersText(others)|)
    decreases others, 0
  {
    hide *;
    FollowsInside(s, i + |OthersText(others)|);
    if others == [] {
      NoOthers();
    } else {
      OthersStep(others);
      var op, u, v := Connective(others[0].Or()), PhraseText(others[0].phrase), OthersText(others[1..]);
      JoinLength(others[0].op, u, v);
      OperatorRead(s, i, others[0].op, op, u + v);
      OperatorFollows(s, i, op);
      var j := i + |op| + 2;
      ReadsParts(s, j, u, v);
      TokensOfOthers(s, j + |u|, others[1..]);
      OperatorIsToken(s, i, op);
      assert others[0].phrase < others[0];
      TokensOfPhrase(s, j, others[0].phrase);
      Chain(Tokens(s, i), Tokens(s, j), Tokens(s, j + |u|), Tokens(s, j + |u| + |v|),
            [OperatorToken(op)], PhraseTokens(others[0].phrase), OthersTokens(others[1..]));
    }
  }

  // ----- Parsing the tokens -----

  lemma {:induction false} ParsePhrase(p: Phrase, rest: seq<Token>)
    requires WellWritten(p)
    ensures ParseCond(PhraseTokens(p) + rest) == (Some(ParsedPhrase(p)), rest)
    decreases p, 1
  {
    hide *;
    if p.Term? {
      ParseTerm(p, rest);
    } else {
      GroupParts(p);
      var close := [RParen] + rest;
      var inner := PhraseTokens(p.first) + OthersTokens(p.others);
      GroupInside(inner, rest);
      ParsePhrases(p.first, p.others, close);
      ParseGroupStep(inner + close,
                     Clause(Connective(LastOr(p.others)), [ParsedPhrase(p.first)] + ParsedOthers(p.others)), rest);
    }
  }

  lemma ParseTerm(p: Phrase, rest: seq<Token>)
    requires p.Term?
    ensures ParseCond(PhraseTokens(p) + rest) == (Some(ParsedPhrase(p)), rest)
  {
    var ts := PhraseTokens(p) + rest;
    assert ts[0] == Expr(p.expr) && ts[1..] == rest;
    hide ParseExpr;
  }

  lemma GroupInside(inner: seq<Token>, rest: seq<Token>)
    ensures [LParen] + inner + [RParen] + rest == [LParen] + (inner + ([RParen] + rest))
    ensures !IsOperator(([RParen] + rest)[0])
  {}

  lemma {:induction false} ParsePhrases(first: Phrase, others: seq<Operand>, rest: seq<Token>)
    requires WellWritten(first) && AllWell(others) && (rest == [] || !IsOperator(rest[0]))
    ensures ParseExpr(PhraseTokens(first) + OthersTokens(others) + rest) ==
      (Clause(Connective(LastOr(others)), [ParsedPhrase(first)] + ParsedOthers(others)), rest)
    decreases Group(first, others), 0
  {
    hide *;
    var ts := OthersTokens(others) + rest;
    ThreeInARow(PhraseTokens(first), OthersTokens(others), rest);
    ParsePhrase(first, ts);
    ParseExprStep(PhraseTokens(first) + ts, ParsedPhrase(first), ts);
    ParseOthers(Clause("AND", [ParsedPhrase(first)]), others, rest);
    OperatorOfNone(others);
  }

  lemma OperatorOfNone(others: seq<Operand>)
    ensures others == [] ==> Connective(LastOr(others)) == "AND"
  {}

  /** Every operator overwrites the one before it. */
  lemma {:induction false} ParseOthers(clause: Clause, others: seq<Operand>, rest: seq<Token>)
    requires AllWell(others) && (rest == [] || !IsOperator(rest[0]))
    ensures ParseMore(clause, OthersTokens(others) + rest) ==
      (Clause(if others == [] then clause.operator else Connective(LastOr(others)),
              clause.conditions + ParsedOthers(others)), rest)
    decreases others, 0
  {
    hide *;
    if others == [] {
      NoOthers();
      ParseNoMore(clause, "AND", rest);
      NoTail();
    } else {
      OthersStep(others);
      var op, c := Connective(others[0].Or()), ParsedPhrase(others[0].phrase);
      var ts := OthersTokens(others[1..]) + rest;
      TokensRegroup([OperatorToken(op)], PhraseTokens(others[0].phrase), OthersTokens(others[1..]), rest);
      assert others[0].phrase < others[0];
      ParsePhrase(others[0].phrase, ts);
      ParseMoreStep(clause, op, PhraseTokens(others[0].phrase) + ts, c, ts);
      ParseOthers(Clause(op, clause.conditions + [c]), others[1..], rest);
      ThreeInARow(clause.conditions, [c], ParsedOthers(others[1..]));
      LastOfMore(others);
    }
  }

  lemma NoTail()
    ensures TailTokens([], "AND") == []
  {}

  lemma TokensRegroup<T>(a: seq<T>, b: seq<T>, c: seq<T>, d: seq<T>)
    ensures a + (b + c) + d == a + (b + (c + d))
  {}

  lemma LastOfMore(others: seq<Operand>)
    requires others != []
    ensures LastOr(others) == if others[1..] == [] then others[0].Or() else LastOr(others[1..])
  {}

  // ----- The text as a whole -----

  lemma TermEnds(p: Phrase)
    requires p.Term? && WellWritten(p)
    ensures var s := PhraseText(p); s != "" && !IsSpace(s[0]) && !IsSpace(s[|s| - 1])
  {
    var l :| ValidLeaf(l) && LeafText(l) == p.expr;
    hide ValidLeaf, LeafText, IsSpace;
    LeafEnds(l);
  }

  lemma PhraseEnds(p: Phrase)
    requires WellWritten(p)
    ensures var s := PhraseText(p); s != "" && !IsSpace(s[0]) && !IsSpace(s[|s| - 1])
  {
    if p.Term? {
      TermEnds(p);
    } else {
      hide OthersText, WellWritten;
      var s := PhraseText(p);
      assert s[0] == '(' && s[|s| - 1] == ')';
    }
  }

  lemma {:induction false} OthersEnd(others: seq<Operand>)
    requires AllWell(others) && others != []
    ensures var s := OthersText(others); s != "" && !IsSpace(s[|s| - 1])
    decreases others
  {
    hide WellWritten, PhraseText, IsSpace, Connective;
    var u, rest := PhraseText(others[0].phrase), OthersText(others[1..]);
    PhraseEnds(others[0].phrase);
    if others[1..] != [] {
      OthersEnd(others[1..]);
      assert OthersText(others)[|OthersText(others)| - 1] == rest[|rest| - 1];
    } else {
      assert OthersText(others)[|OthersText(others)| - 1] == u[|u| - 1];
    }
  }

  lemma ListEnds(first: Phrase, others: seq<Operand>)
    requires WellWritten(first) && AllWell(others)
    ensures var s := ListTextOf(first, others); s != "" && !IsSpace(s[0]) && !IsSpace(s[|s| - 1])
  {
    hide WellWritten, PhraseText, OthersText, IsSpace;
    PhraseEnds(first);
    NoOthers();
    var s, t := ListTextOf(first, others), OthersText(others);
    if others != [] {
      OthersEnd(others);
      assert s[|s| - 1] == t[|t| - 1];
    }
  }

  /** Without parentheses the last operator counts for all conditions of a list, also of the lists within. */
  lemma LastOperatorCounts(first: Phrase, others: seq<Operand>)
    requires WellWritten(first) && AllWell(others)
    ensures Parsed(ListTextOf(first, others)) ==
      Some(Clause(Connective(LastOr(others)), [ParsedPhrase(first)] + ParsedOthers(others)))
  {
    hide *;
    var s := ListTextOf(first, others);
    ListEnds(first, others);
    TrimKeeps(s);
    ReadsItself(s);
    FollowsAtEnd(s);
    TokensOfPhrases(s, 0, first, others);
    NothingAtEnd(s);
    ParsePhrases(first, others, []);
    ParsedIs(s, Clause(Connective(LastOr(others)), [ParsedPhrase(first)] + ParsedOthers(others)));
  }

  lemma FollowsAtEnd(s: string)
    ensures Follows(s, |s|)
  {}

  lemma ReadsItself(s: string)
    ensures Reads(s, 0, s)
  {}

  lemma ParsedIs(s: string, clause: Clause)
    requires s != "" && TrimSpace(s) == s && ParseExpr(Tokens(s, 0)).0 == clause
    ensures Parsed(s) == Some(clause)
  {
    hide TrimSpace, Tokens, ParseExpr;
  }

  // ----- Meanings compared -----

  /** What is parsed says what is written if the last operator of every list counts for the whole list. */
  lemma {:induction false} SaysAsRead(p: Phrase)
    ensures Says(ParsedPhrase(p)) == Reading(p, true)
    decreases p, 1
  {
    if p.Group? {
      hide Behind;
      SaysAsRead(p.first);
      PartsAsRead(p.others, LastOr(p.others));
      PartsOfMore(ParsedPhrase(p.first), ParsedOthers(p.others), LastOr(p.others));
    }
  }

  lemma PartsOfMore(c: Condition, cs: seq<Condition>, or: bool)
    ensures Whole(PartsOf([c] + cs, or)) == Behind(Says(c), PartsOf(cs, or))
  {
    hide Says, Behind;
    assert ([c] + cs)[1..] == cs;
    assert ([Part(or, Says(c), ())] + PartsOf(cs, or))[1..] == PartsOf(cs, or);
  }

  lemma {:induction false} PartsAsRead(others: seq<Operand>, last: bool)
    ensures PartsOf(ParsedOthers(others), last) == PartsRead(others, true, last)
    decreases others, 0
  {
    hide Says, Reading, ParsedPhrase;
    if others != [] {
      assert others[0].phrase < others[0];
      SaysAsRead(others[0].phrase);
      PartsAsRead(others[1..], last);
    }
  }

  lemma {:induction false} ReadingNames(p: Phrase, lastCounts: bool)
    ensures Names(Reading(p, lastCounts)) == Terms(p) != []
    decreases p, 1
  {
    if p.Group? {
      ReadingNames(p.first, lastCounts);
      PartsNames(p.others, lastCounts, LastOr(p.others));
      NamesOfBehind(Reading(p.first, lastCounts), PartsRead(p.others, lastCounts, LastOr(p.others)));
    }
  }

  lemma {:induction false} PartsNames(others: seq<Operand>, lastCounts: bool, last: bool)
    ensures NamesOf(PartsRead(others, lastCounts, last)) == TermsOf(others)
    decreases others, 0
  {
    hide Reading, Terms;
    if others != [] {
      assert others[0].phrase < others[0];
      ReadingNames(others[0].phrase, lastCounts);
      PartsNames(others[1..], lastCounts, last);
    }
  }

  lemma {:induction false} PartsReadAt(others: seq<Operand>, lastCounts: bool, last: bool, i: nat)
    requires i < |others|
    ensures PartsRead(others, lastCounts, last)[i] ==
      Part(if lastCounts then last else others[i].Or(), Reading(others[i].phrase, lastCounts), ())
    decreases i
  {
    hide Reading;
    if i > 0 {
      PartsReadAt(others[1..], lastCounts, last, i - 1);
    }
  }

  /** With one operator throughout each list, both readings are the same. */
  lemma {:induction false} UniformIsReadAsWritten(p: Phrase)
    requires Uniform(p)
    ensures Reading(p, true) == Reading(p, false)
    decreases p, 1
  {
    if p.Group? {
      hide Behind;
      UniformIsReadAsWritten(p.first);
      UniformPartsAgree(p.others, LastOr(p.others));
    }
  }

  lemma {:induction false} UniformPartsAgree(others: seq<Operand>, last: bool)
    requires forall i :: 0 <= i < |others| ==> Uniform(others[i].phrase) && others[i].Or() == last
    ensures PartsRead(others, true, last) == PartsRead(others, false, last)
    decreases others, 0
  {
    hide Reading, Uniform;
    if others != [] {
      assert others[0].phrase < others[0];
      UniformIsReadAsWritten(others[0].phrase);
      UniformPartsAgree(others[1..], last);
    }
  }

  /** The list of a group as it is read. */
  lemma ReadingOfGroup(p: Phrase, lastCounts: bool)
    requires p.Group?
    ensures Reading(p, lastCounts) ==
      Behind(Reading(p.first, lastCounts), PartsRead(p.others, lastCounts, LastOr(p.others)))
  {}

  /** Two conditions beside an operator meet at it. */
  lemma NeighboursInList(p: Phrase, i: nat, lastCounts: bool, a: string, b: string)
    requires p.Group? && i < |p.others|
    requires a in Terms(if i == 0 then p.first else p.others[i - 1].phrase) && b in Terms(p.others[i].phrase)
    ensures Gate(Reading(p, lastCounts), !(if lastCounts then LastOr(p.others) else p.others[i].Or()), a, b)
  {
    hide *;
    ReadingOfGroup(p, lastCounts);
    var run, parts := Reading(p.first, lastCounts), PartsRead(p.others, lastCounts, LastOr(p.others));
    PartsReadAt(p.others, lastCounts, LastOr(p.others), i);
    ReadingNames(p.others[i].phrase, lastCounts);
    if i == 0 {
      ReadingNames(p.first, lastCounts);
    } else {
      PartsReadAt(p.others, lastCounts, LastOr(p.others), i - 1);
      ReadingNames(p.others[i - 1].phrase, lastCounts);
    }
    assert Before(run, parts, i) == if i == 0 then run else parts[i - 1].formula by { BeforeIs(run, parts, i); }
    if parts[i].or {
      DividedMeet(run, parts, i, i, i, a, b);
    } else {
      NeighboursMeet(run, parts, i, a, b);
    }
  }

  lemma BeforeIs<P, T>(run: Formula<P>, parts: seq<Joined<P, T>>, i: nat)
    requires i <= |parts|
    ensures Before(run, parts, i) == if i == 0 then run else parts[i - 1].formula
  {}

  /** What meets within a condition meets in the list it stands in. */
  lemma WithinList(p: Phrase, i: nat, lastCounts: bool, and: bool, a: string, b: string)
    requires p.Group? && i <= |p.others|
    requires Gate(Reading(if i == 0 then p.first else p.others[i - 1].phrase, lastCounts), and, a, b)
    ensures Gate(Reading(p, lastCounts), and, a, b)
  {
    hide *;
    ReadingOfGroup(p, lastCounts);
    var run, parts := Reading(p.first, lastCounts), PartsRead(p.others, lastCounts, LastOr(p.others));
    if i == 0 {
      GateStays(run, parts, and, a, b);
    } else {
      PartsReadAt(p.others, lastCounts, LastOr(p.others), i - 1);
      GateWithin(run, parts, i - 1, and, a, b);
    }
  }

  lemma SomeTerm(p: Phrase) returns (a: string)
    ensures a in Terms(p)
  {
    hide Terms;
    ReadingNames(p, false);
    a := Terms(p)[0];
  }

  /** Where a list mixes operators, at whatever depth, two expressions meet at an AND in one reading and at
      an OR in the other. */
  lemma {:induction false} MixedMeet(p: Phrase) returns (and: bool, a: string, b: string)
    requires !Uniform(p)
    ensures Gate(Reading(p, false), and, a, b) && Gate(Reading(p, true), !and, a, b)
    decreases p
  {
    hide Reading, Gate, Terms;
    if !Uniform(p.first) {
      and, a, b := MixedMeet(p.first);
      WithinList(p, 0, false, and, a, b);
      WithinList(p, 0, true, !and, a, b);
    } else {
      var i :| 0 <= i < |p.others| && !(Uniform(p.others[i].phrase) && p.others[i].Or() == LastOr(p.others));
      if !Uniform(p.others[i].phrase) {
        and, a, b := MixedMeet(p.others[i].phrase);
        WithinList(p, i + 1, false, and, a, b);
        WithinList(p, i + 1, true, !and, a, b);
      } else {
        and := !p.others[i].Or();
        a := SomeTerm(if i == 0 then p.first else p.others[i - 1].phrase);
        b := SomeTerm(p.others[i].phrase);
        NeighboursInList(p, i, false, a, b);
        NeighboursInList(p, i, true, a, b);
      }
    }
  }

  lemma MixedDiffer(p: Phrase) returns (s: set<string>)
    requires !Uniform(p) && NoRepeats(Terms(p))
    ensures Eval(Holding(s), Reading(p, true)) != Eval(Holding(s), Reading(p, false))
  {
    hide *;
    var and, a, b := MixedMeet(p);
    ReadingNames(p, false);
    ReadingNames(p, true);
    if and {
      s := MeetingsTellApart(Reading(p, false), Reading(p, true), a, b);
    } else {
      s := MeetingsTellApart(Reading(p, true), Reading(p, false), a, b);
    }
  }

  // ----- Main result -----

  /** What parsing makes of the list says what was written. */
  ghost predicate ParsedAsWritten(env: string -> Truth, first: Phrase, others: seq<Operand>) {
    var parsed := Parsed(ListTextOf(first, others));
    && parsed.Some? && parsed.value.conditions != []
    && Eval(env, SaysClause(parsed.value)) == Eval(env, Reading(Group(first, others), false))
  }

  lemma ClauseSays(first: Phrase, others: seq<Operand>)
    ensures SaysClause(Clause(Connective(LastOr(others)), [ParsedPhrase(first)] + ParsedOthers(others)))
         == Reading(Group(first, others), true)
  {
    hide Says, Behind, PartsOf, PartsRead, ParsedOthers;
    SaysAsRead(first);
    PartsAsRead(others, LastOr(others));
    PartsOfMore(ParsedPhrase(first), ParsedOthers(others), LastOr(others));
  }

  /** The text of a list of conditions, with lists in parentheses to any depth and no expression repeated, is
      parsed into what it says, for every truth of the expressions, if and only if no list of it, at any
      depth, mixes operators. */
  lemma MixedListsLoseTheirMeaning(first: Phrase, others: seq<Operand>)
    requires WellWritten(first) && AllWell(others) && NoRepeats(Terms(Group(first, others)))
    ensures (forall env: string -> Truth :: ParsedAsWritten(env, first, others)) <==> Uniform(Group(first, others))
  {
    hide Parsed, ListTextOf, SaysClause, Reading, Eval, NoRepeats, Uniform, Terms, Connective, ParsedPhrase, ParsedOthers;
    var p := Group(first, others);
    LastOperatorCounts(first, others);
    ClauseSays(first, others);
    if Uniform(p) {
      UniformIsReadAsWritten(p);
    } else {
      var s := MixedDiffer(p);
      assert !ParsedAsWritten(Holding(s), first, others);
    }
  }
}
