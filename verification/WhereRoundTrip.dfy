/** Parsing undoes printing. */
module WhereRoundTrip {
  import opened Options
  import opened WhereLexer
  import opened WhereParser
  import opened WherePrinter
  import opened WhereScan

  // ----- The expressions of conditions -----

  /** A column compared with a parameter, a column between two, a column in a list; the keywords as they are
      spelled. */
  datatype Leaf =
    | Compare(column: string, op: string, param: string)
    | Between(column: string, between: string, low: string, and: string, high: string)
    | InList(column: string, within: string, param: string)

  predicate Name(p: string) {
    p != "" && forall j :: 0 <= j < |p| ==> IsNameChar(p[j])
  }

  /** A word that neither names a parameter nor holds a wildcard. */
  predicate PlainWord(w: string) {
    Word(w) && forall j :: 0 <= j < |w| ==> w[j] != '@' && w[j] != '%'
  }

  predicate ValidLeaf(l: Leaf) {
    match l
    case Compare(column, op, param) => PlainWord(column) && PlainWord(op) && Name(param)
    case Between(column, between, low, and, high) =>
      PlainWord(column) && Spells(between, "BETWEEN") && Name(low) && Spells(and, "AND") && Name(high)
    case InList(column, within, param) =>
      PlainWord(column) && (Spells(within, "IN") || Spells(within, "NOT IN")) && Name(param)
  }

  function LeafText(l: Leaf): string {
    match l
    case Compare(column, op, param) => column + (" " + (op + (" " + ("@" + param))))
    case Between(column, between, low, and, high) =>
      column + (" " + (between + (" " + (("@" + low) + (" " + (and + (" " + ("@" + high))))))))
    case InList(column, within, param) => column + (" " + (within + (" " + ("(" + (("@" + param) + ")")))))
  }

  lemma ParameterIsWord(p: string)
    requires Name(p)
    ensures Word("@" + p)
  {
    var w := "@" + p;
    assert Upper(w[0]) == '@';
    forall j | 0 <= j < |w| ensures IsSolid(w[j]) {
      if j > 0 {
        assert w[j] == p[j - 1];
      }
    }
  }

  /** What may follow an expression: the end, a closing parenthesis, or an operator. */
  predicate Follows(s: string, i: nat) {
    i <= |s| && (i < |s| ==>
      || s[i] == ')'
      || (s[i] == ' ' && (Spelled(s, i + 1, "AND") || Spelled(s, i + 1, "OR"))
          && i + 1 + (if Spelled(s, i + 1, "AND") then 3 else 2) < |s|
          && s[i + 1 + (if Spelled(s, i + 1, "AND") then 3 else 2)] == ' '))
  }

  /** Where the scan ends that has come to the end of an expression: there, or after the blank. */
  lemma ScanEnd(s: string, i: nat, m: Mode)
    requires Follows(s, i) && !m.inBetween && !m.inIn && m.depth == 0
    ensures Scan(s, i, m) == i + if i < |s| && s[i] == ' ' then 1 else 0
  {
    hide Spelled, ScanMove, Scan;
    if i == |s| {
      ScanStep(s, i, m);
    } else if s[i] == ')' {
      ScanClose(s, i, m);
    } else {
      ScanBlank(s, i, m);
      if Spelled(s, i + 1, "AND") {
        ScanAnd(s, i + 1, m);
      } else {
        ScanOr(s, i + 1, m);
      }
    }
  }

  lemma BlankBehind(s: string, i: nat, k: string, rest: string)
    requires Reads(s, i, k + (" " + rest))
    ensures Reads(s, i, k) && i + |k| < |s| && s[i + |k|] == ' ' && Reads(s, i + |k| + 1, rest)
  {
    ReadsParts(s, i, k, " " + rest);
    ReadsParts(s, i + |k|, " ", rest);
    assert s[i + |k| + 0] == " "[0];
  }

  /** A word and the blank behind it. */
  lemma ScanWordBlank(s: string, i: nat, w: string, rest: string, m: Mode)
    requires Reads(s, i, w + (" " + rest)) && Word(w)
    ensures i + |w| < |s| && s[i + |w|] == ' ' && Reads(s, i + |w| + 1, rest)
    ensures Scan(s, i, m) == Scan(s, i + |w| + 1, m)
  {
    hide Reads, Word, Scan, ScanMove;
    BlankBehind(s, i, w, rest);
    ScanWord(s, i, w, m);
    ScanBlank(s, i + |w|, m);
  }

  lemma ScanLast(s: string, i: nat, p: string, m: Mode)
    requires Reads(s, i, "@" + p) && Name(p) && Follows(s, i + 1 + |p|) && !m.inBetween && !m.inIn && m.depth == 0
    ensures var e := i + 1 + |p|; Scan(s, i, m) == e + if e < |s| && s[e] == ' ' then 1 else 0
  {
    hide Reads, Word, Scan, ScanMove;
    ParameterIsWord(p);
    ScanWord(s, i, "@" + p, m);
    ScanEnd(s, i + 1 + |p|, m);
  }

  lemma ScanCompare(s: string, i: nat, l: Leaf)
    requires l.Compare? && ValidLeaf(l) && Reads(s, i, LeafText(l)) && Follows(s, i + |LeafText(l)|)
    ensures var e := i + |LeafText(l)|; Scan(s, i, START) == e + if e < |s| && s[e] == ' ' then 1 else 0
  {
    hide Reads, Word, Scan, ScanMove, Name, Follows;
    var rest := l.op + (" " + ("@" + l.param));
    ScanWordBlank(s, i, l.column, rest, START);
    ScanWordBlank(s, i + |l.column| + 1, l.op, "@" + l.param, START);
    ScanLast(s, i + |l.column| + 1 + |l.op| + 1, l.param, START);
  }

  /** From the operator of the bounds on. */
  lemma ScanFromAnd(s: string, a: nat, and: string, high: string)
    requires 0 < a <= |s| && s[a - 1] == ' ' && Spells(and, "AND") && Name(high)
    requires Reads(s, a, and + (" " + ("@" + high))) && Follows(s, a + |high| + 5)
    ensures var e := a + |high| + 5;
      Scan(s, a, START.(inBetween := true)) == e + if e < |s| && s[e] == ' ' then 1 else 0
  {
    hide Reads, Spells, Spelled, Word, Scan, ScanMove, Name, Follows;
    BlankBehind(s, a, and, "@" + high);
    ReadIsSpelled(s, a, and, "AND");
    ScanAnd(s, a, START.(inBetween := true));
    ScanBlank(s, a + 3, START);
    ScanLast(s, a + 4, high, START);
  }

  /** From the keyword of a BETWEEN on. */
  lemma ScanFromBetween(s: string, b: nat, between: string, low: string, and: string, high: string)
    requires 0 < b <= |s| && s[b - 1] == ' '
    requires Spells(between, "BETWEEN") && Name(low) && Spells(and, "AND") && Name(high)
    requires Reads(s, b, between + (" " + (("@" + low) + (" " + (and + (" " + ("@" + high)))))))
    requires Follows(s, b + |low| + |high| + 15)
    ensures var e := b + |low| + |high| + 15;
      Scan(s, b, START) == e + if e < |s| && s[e] == ' ' then 1 else 0
  {
    hide Reads, Spells, Spelled, Word, Scan, ScanMove, Name, Follows;
    var afterLow := and + (" " + ("@" + high));
    var m := START.(inBetween := true);
    BlankBehind(s, b, between, ("@" + low) + (" " + afterLow));
    ReadIsSpelled(s, b, between, "BETWEEN");
    ScanBetween(s, b, START);
    ScanBlank(s, b + 7, m);
    ParameterIsWord(low);
    ScanWordBlank(s, b + 8, "@" + low, afterLow, m);
    ScanFromAnd(s, b + |low| + 10, and, high);
  }

  lemma ScanBetweenLeaf(s: string, i: nat, l: Leaf)
    requires l.Between? && ValidLeaf(l) && Reads(s, i, LeafText(l)) && Follows(s, i + |LeafText(l)|)
    ensures var e := i + |LeafText(l)|; Scan(s, i, START) == e + if e < |s| && s[e] == ' ' then 1 else 0
  {
    hide Reads, Spells, Spelled, Word, Scan, ScanMove, Name, Follows;
    BetweenLength(l);
    var afterLow := l.and + (" " + ("@" + l.high));
    ScanWordBlank(s, i, l.column, l.between + (" " + (("@" + l.low) + (" " + afterLow))), START);
    ScanFromBetween(s, i + |l.column| + 1, l.between, l.low, l.and, l.high);
  }

  lemma BetweenLength(l: Leaf)
    requires l.Between? && ValidLeaf(l)
    ensures |LeafText(l)| == |l.column| + |l.low| + |l.high| + 16
  {
    hide Word, Name;
  }

  /** From the keyword of an IN on. */
  lemma ScanFromIn(s: string, b: nat, within: string, p: string)
    requires 0 < b <= |s| && s[b - 1] == ' ' && (Spells(within, "IN") || Spells(within, "NOT IN")) && Name(p)
    requires Reads(s, b, within + (" " + ("(" + (("@" + p) + ")"))))
    ensures Scan(s, b, START) == b + |within| + |p| + 4
  {
    hide Reads, Spells, Spelled, Word, Scan, ScanMove, Name;
    var m := START.(inIn := true);
    BlankBehind(s, b, within, "(" + (("@" + p) + ")"));
    if Spells(within, "IN") {
      ReadIsSpelled(s, b, within, "IN");
      ScanIn(s, b, START);
    } else {
      ReadIsSpelled(s, b, within, "NOT IN");
      ScanNotIn(s, b, START);
    }
    var at := b + |within|;
    ScanBlank(s, at, m);
    ScanFromList(s, at + 1, p);
  }

  /** The parenthesised list. */
  lemma ScanFromList(s: string, i: nat, p: string)
    requires 0 < i && Reads(s, i, "(" + (("@" + p) + ")")) && Name(p)
    ensures Scan(s, i, START.(inIn := true)) == i + |p| + 3
  {
    hide Reads, Word, Scan, ScanMove, Name;
    var m := START.(inIn := true);
    Parenthesised(s, i, "@" + p);
    ScanOpen(s, i, m);
    ParameterIsWord(p);
    var m' := m.(entered := true);
    ScanWord(s, i + 1, "@" + p, m');
    ScanClose(s, i + |p| + 2, m');
  }

  lemma ScanInLeaf(s: string, i: nat, l: Leaf)
    requires l.InList? && ValidLeaf(l) && Reads(s, i, LeafText(l))
    ensures Scan(s, i, START) == i + |LeafText(l)|
  {
    hide Reads, Spells, Word, Scan, ScanMove, Name;
    InLength(l);
    ScanWordBlank(s, i, l.column, l.within + (" " + ("(" + (("@" + l.param) + ")"))), START);
    ScanFromIn(s, i + |l.column| + 1, l.within, l.param);
  }

  lemma InLength(l: Leaf)
    requires l.InList?
    ensures |LeafText(l)| == |l.column| + 1 + |l.within| + |l.param| + 4
  {}

  lemma Parenthesised(s: string, i: nat, w: string)
    requires Reads(s, i, "(" + (w + ")"))
    ensures i + |w| + 1 < |s| && s[i] == '(' && Reads(s, i + 1, w) && s[i + 1 + |w|] == ')'
  {
    ReadsParts(s, i, "(", w + ")");
    ReadsParts(s, i + 1, w, ")");
    assert s[i + 0] == "("[0];
    assert s[i + 1 + |w| + 0] == ")"[0];
  }

  // ----- Expressions as tokens -----

  lemma TrimKeeps(t: string)
    requires t != "" && !IsSpace(t[0]) && !IsSpace(t[|t| - 1])
    ensures TrimSpace(t) == t && TrimSpace(t + " ") == t
  {
    assert (t + " ")[..|t|] == t;
  }

  lemma LeafEnds(l: Leaf)
    requires ValidLeaf(l)
    ensures var t := LeafText(l); t != "" && !IsSpace(t[0]) && t[0] != ',' && !IsSpace(t[|t| - 1])
    ensures LeafText(l)[..|l.column|] == l.column && |l.column| < |LeafText(l)| && LeafText(l)[|l.column|] == ' '
  {
    var t := LeafText(l);
    assert t[0] == l.column[0];
    match l
    case Compare(_, _, param) => assert t[|t| - 1] == param[|param| - 1];
    case Between(_, _, _, _, high) => assert t[|t| - 1] == high[|high| - 1];
    case InList(_, _, _) => assert t[|t| - 1] == ')';
  }

  lemma ColumnStarts(s: string, i: nat, l: Leaf)
    requires ValidLeaf(l) && Reads(s, i, LeafText(l))
    ensures Reads(s, i, l.column) && WordEnds(s, i + |l.column|)
  {
    LeafEnds(l);
    var t, n := LeafText(l), |l.column|;
    assert s[i + n] == t[n];
    forall j | 0 <= j < n ensures s[i + j] == l.column[j] {
      assert s[i + j] == t[j] == t[..n][j];
    }
  }

  lemma LeafStartsToken(s: string, i: nat, l: Leaf)
    requires ValidLeaf(l) && Reads(s, i, LeafText(l))
    ensures i < |s| && !IsBlank(s[i]) && s[i] != ',' && s[i] != '(' && s[i] != ')'
    ensures !Keyword(s, i, "IN", true) && !Keyword(s, i, "NOT IN", true)
    ensures !Keyword(s, i, "AND", true) && !Keyword(s, i, "OR", true)
  {
    ColumnStarts(s, i, l);
    hide LeafText, Keyword;
    assert s[i + 0] == l.column[0];
    NoKeywordAtWord(s, i, l.column);
  }

  lemma ScanLeaf(s: string, i: nat, l: Leaf)
    requires ValidLeaf(l) && Reads(s, i, LeafText(l)) && Follows(s, i + |LeafText(l)|)
    ensures var e := i + |LeafText(l)|;
      Scan(s, i, START) == e || (Scan(s, i, START) == e + 1 && s[e] == ' ')
  {
    hide Reads, ValidLeaf, LeafText, Scan, Follows;
    match l
    case Compare(_, _, _) => ScanCompare(s, i, l);
    case Between(_, _, _, _, _) => ScanBetweenLeaf(s, i, l);
    case InList(_, _, _) => ScanInLeaf(s, i, l);
  }

  lemma TokensAfterBlank(s: string, i: nat)
    requires i < |s| && s[i] == ' '
    ensures Tokens(s, i) == Tokens(s, i + 1)
  {
    hide TokenAt;
  }

  lemma ExpressionToken(s: string, i: nat, end: nat, t: string)
    requires i < |s| && s[i] != '(' && s[i] != ')'
    requires !Keyword(s, i, "IN", true) && !Keyword(s, i, "NOT IN", true)
    requires !Keyword(s, i, "AND", true) && !Keyword(s, i, "OR", true)
    requires end == Scan(s, i, START) && TrimSpace(s[i..end]) == t
    ensures TokenAt(s, i) == Got(Expr(t), end)
  {
    hide Keyword, Scan, TrimSpace;
  }

  lemma TrimmedSlice(s: string, i: nat, t: string, end: nat)
    requires Reads(s, i, t) && t != "" && !IsSpace(t[0]) && !IsSpace(t[|t| - 1])
    requires end == i + |t| || (end == i + |t| + 1 <= |s| && s[i + |t|] == ' ')
    ensures end <= |s| && TrimSpace(s[i..end]) == t
  {
    TrimKeeps(t);
    ReadsSlice(s, i, t);
    assert end == i + |t| || s[i..end] == t + " ";
  }

  lemma TextIsToken(s: string, i: nat, t: string, end: nat)
    requires Reads(s, i, t) && i < |s| && i + |t| <= |s|
    requires !IsBlank(s[i]) && s[i] != ',' && TokenAt(s, i) == Got(Expr(t), end)
    requires end == i + |t| || (end == i + |t| + 1 <= |s| && s[i + |t|] == ' ')
    ensures Tokens(s, i) == [Expr(t)] + Tokens(s, i + |t|)
  {
    hide *;
    TokensStep(s, i, Expr(t), end);
    if end == i + |t| + 1 {
      TokensAfterBlank(s, i + |t|);
    }
  }

  /** An expression is one token. */
  lemma LeafIsToken(s: string, i: nat, l: Leaf, t: string)
    requires t == LeafText(l) && ValidLeaf(l) && Reads(s, i, t) && Follows(s, i + |t|)
    ensures i + |t| <= |s| && Tokens(s, i) == [Expr(t)] + Tokens(s, i + |t|)
  {
    hide *;
    FollowsInside(s, i + |t|);
    var end := Scan(s, i, START);
    LeafEnds(l);
    LeafStartsToken(s, i, l);
    ScanLeaf(s, i, l);
    TrimmedSlice(s, i, t, end);
    ExpressionToken(s, i, end, t);
    TextIsToken(s, i, t, end);
  }

  lemma TokensStep(s: string, i: nat, t: Token, next: nat)
    requires i < |s| && !IsBlank(s[i]) && s[i] != ',' && TokenAt(s, i) == Got(t, next)
    ensures next <= |s| && Tokens(s, i) == [t] + Tokens(s, next)
  {
    hide TokenAt;
  }

  lemma ParenIsToken(s: string, i: nat)
    requires i < |s| && (s[i] == '(' || s[i] == ')')
    ensures Tokens(s, i) == [if s[i] == '(' then LParen else RParen] + Tokens(s, i + 1)
  {
    TokensStep(s, i, if s[i] == '(' then LParen else RParen, i + 1);
  }

  predicate IsOperatorName(op: string) {
    op == "AND" || op == "OR"
  }

  function OperatorToken(op: string): Token {
    if op == "AND" then And else Or
  }

  /** An operator between blanks is a token, in any case. */
  lemma OperatorIsToken(s: string, i: nat, op: string)
    requires IsOperatorName(op) && i < |s| && s[i] == ' ' && Spelled(s, i + 1, op)
    requires i + 1 + |op| < |s| && s[i + 1 + |op|] == ' '
    ensures Tokens(s, i) == [OperatorToken(op)] + Tokens(s, i + |op| + 2)
  {
    hide *;
    OperatorTokenAt(s, i + 1, op);
    TokensAfterBlank(s, i);
    TokensStep(s, i + 1, OperatorToken(op), i + 1 + |op|);
    TokensAfterBlank(s, i + 1 + |op|);
  }

  lemma OperatorRead(s: string, i: nat, w: string, op: string, rest: string)
    requires Reads(s, i, " " + (w + (" " + rest))) && Spells(w, op)
    ensures |w| == |op| && i < |s| && s[i] == ' ' && Spelled(s, i + 1, op)
    ensures i + 1 + |op| < |s| && s[i + 1 + |op|] == ' ' && Reads(s, i + |op| + 2, rest)
  {
    hide Reads, Spells, Spelled;
    BlankBefore(s, i, w + (" " + rest));
    BlankBehind(s, i + 1, w, rest);
    ReadIsSpelled(s, i + 1, w, op);
  }

  lemma BlankBefore(s: string, i: nat, rest: string)
    requires Reads(s, i, " " + rest)
    ensures i < |s| && s[i] == ' ' && Reads(s, i + 1, rest)
  {
    ReadsParts(s, i, " ", rest);
    assert s[i + 0] == " "[0];
  }

  lemma FirstLetter(s: string, i: nat, k: string)
    requires Spelled(s, i, k) && k != ""
    ensures i < |s| && InAnyCase(s[i], k[0])
  {
    assert InAnyCase(s[i + 0], k[0]);
  }

  lemma OperatorTokenAt(s: string, i: nat, op: string)
    requires IsOperatorName(op) && Spelled(s, i, op) && 0 < i && s[i - 1] == ' ' && i + |op| < |s| && s[i + |op|] == ' '
    ensures TokenAt(s, i) == Got(OperatorToken(op), i + |op|) && !IsBlank(s[i]) && s[i] != ','
  {
    FirstLetter(s, i, op);
    KeywordRead(s, i, op, true);
    if op == "OR" {
      OneKeyword(s, i, "OR", true, "AND", true);
    }
    hide Keyword, Scan, TrimSpace, Spelled;
  }

  lemma OperatorFollows(s: string, i: nat, op: string)
    requires IsOperatorName(op) && i < |s| && s[i] == ' ' && Spelled(s, i + 1, op)
    requires i + 1 + |op| < |s| && s[i + 1 + |op|] == ' '
    ensures Follows(s, i)
  {
    FirstLetter(s, i + 1, op);
    if Spelled(s, i + 1, "AND") {
      FirstLetter(s, i + 1, "AND");
    }
    hide Spelled;
  }

  // ----- Condition trees -----

  /** The conditions that come back: groups are not empty, have AND or OR (AND when there is nothing to
      join), and the expressions are those of `Leaf`. */
  ghost predicate Printable(c: Condition) {
    if c.expr != "" then
      c.operator == "" && c.conditions == [] && exists l :: ValidLeaf(l) && LeafText(l) == c.expr
    else
      && c.conditions != [] && IsOperatorName(c.operator) && (|c.conditions| == 1 ==> c.operator == "AND")
      && forall i :: 0 <= i < |c.conditions| ==> Printable(c.conditions[i])
  }

  ghost predicate AllPrintable(cs: seq<Condition>) {
    forall i :: 0 <= i < |cs| ==> Printable(cs[i])
  }

  function Text(c: Condition): string {
    if c.expr != "" then c.expr else "(" + (ListText(c.conditions, c.operator) + ")")
  }

  function ListText(cs: seq<Condition>, op: string): string {
    if cs == [] then "" else if |cs| == 1 then Text(cs[0])
    else Text(cs[0]) + (" " + (op + (" " + ListText(cs[1..], op))))
  }

  function TokensOf(c: Condition): seq<Token> {
    if c.expr != "" then [Expr(c.expr)]
    else [LParen] + ListTokens(c.conditions, c.operator) + [RParen]
  }

  function ListTokens(cs: seq<Condition>, op: string): seq<Token> {
    if cs == [] then [] else TokensOf(cs[0]) + TailTokens(cs[1..], op)
  }

  /** The conditions after the first, each behind an operator. */
  function TailTokens(cs: seq<Condition>, op: string): seq<Token> {
    if cs == [] then [] else [OperatorToken(op)] + (TokensOf(cs[0]) + TailTokens(cs[1..], op))
  }

  lemma Chain<T>(t0: seq<T>, t1: seq<T>, t2: seq<T>, t3: seq<T>, a: seq<T>, b: seq<T>, c: seq<T>)
    requires t0 == a + t1 && t1 == b + t2 && t2 == c + t3
    ensures t0 == (a + b + c) + t3 == (a + (b + c)) + t3
  {}

  lemma ExprTokens(s: string, i: nat, c: Condition, u: string)
    requires c.expr != "" && Printable(c) && u == Text(c) && Reads(s, i, u) && Follows(s, i + |u|)
    ensures i + |u| <= |s| && Tokens(s, i) == TokensOf(c) + Tokens(s, i + |u|)
  {
    var l :| ValidLeaf(l) && LeafText(l) == c.expr;
    hide Tokens, Reads, Follows, ValidLeaf, LeafText;
    LeafIsToken(s, i, l, u);
  }

  lemma FollowsInside(s: string, i: nat)
    requires Follows(s, i)
    ensures i <= |s|
  {}

  lemma PrintableParts(cs: seq<Condition>, op: string)
    requires cs != [] && AllPrintable(cs)
    ensures Printable(cs[0]) && AllPrintable(cs[1..])
    ensures |cs| == 1 ==> ListText(cs, op) == Text(cs[0])
  {}

  lemma GroupPrintable(c: Condition)
    requires Printable(c) && c.expr == ""
    ensures c.conditions != [] && AllPrintable(c.conditions) && IsOperatorName(c.operator)
  {}

  lemma GroupRead(s: string, i: nat, c: Condition, v: string)
    requires c.expr == "" && v == ListText(c.conditions, c.operator) && Reads(s, i, Text(c))
    ensures |Text(c)| == |v| + 2 && i + |v| + 1 < |s| && s[i] == '(' && s[i + |v| + 1] == ')'
    ensures Reads(s, i + 1, v) && Follows(s, i + 1 + |v|)
    ensures TokensOf(c) == [LParen] + ListTokens(c.conditions, c.operator) + [RParen]
  {
    hide Reads, ListText, ListTokens;
    Parenthesised(s, i, v);
  }

  lemma ListRead(s: string, i: nat, cs: seq<Condition>, op: string, u: string, rest: string)
    requires |cs| > 1 && IsOperatorName(op) && u == Text(cs[0]) && rest == ListText(cs[1..], op)
    requires Reads(s, i, ListText(cs, op))
    ensures |ListText(cs, op)| == |u| + |op| + 2 + |rest|
    ensures var j := i + |u|;
      && Reads(s, i, u) && Follows(s, j) && j < |s| && s[j] == ' ' && Spelled(s, j + 1, op)
      && j + 1 + |op| < |s| && s[j + 1 + |op|] == ' ' && Reads(s, j + |op| + 2, rest)
  {
    hide Reads, Text, Follows;
    var behind := " " + (op + (" " + rest));
    assert ListText(cs, op) == u + behind;
    hide ListText;
    ReadsParts(s, i, u, behind);
    SpellsItself(op);
    OperatorRead(s, i + |u|, op, op, rest);
    OperatorFollows(s, i + |u|, op);
  }

  /** The lexer reads a printed condition as its tokens. */
  lemma {:induction false} TokensOfText(s: string, i: nat, c: Condition)
    requires Printable(c) && Reads(s, i, Text(c)) && Follows(s, i + |Text(c)|)
    ensures i + |Text(c)| <= |s| && Tokens(s, i) == TokensOf(c) + Tokens(s, i + |Text(c)|)
    decreases c, 0
  {
    hide *;
    FollowsInside(s, i + |Text(c)|);
    if c.expr != "" {
      ExprTokens(s, i, c, Text(c));
    } else {
      var v := ListText(c.conditions, c.operator);
      GroupPrintable(c);
      GroupRead(s, i, c, v);
      var e := i + 1 + |v|;
      ParenIsToken(s, i);
      TokensOfList(s, i + 1, c.conditions, c.operator);
      ParenIsToken(s, e);
      Chain(Tokens(s, i), Tokens(s, i + 1), Tokens(s, e), Tokens(s, e + 1),
            [LParen], ListTokens(c.conditions, c.operator), [RParen]);
    }
  }

  lemma {:induction false} TokensOfList(s: string, i: nat, cs: seq<Condition>, op: string)
    requires cs != [] && AllPrintable(cs) && IsOperatorName(op)
    requires Reads(s, i, ListText(cs, op)) && Follows(s, i + |ListText(cs, op)|)
    ensures i + |ListText(cs, op)| <= |s|
    ensures Tokens(s, i) == ListTokens(cs, op) + Tokens(s, i + |ListText(cs, op)|)
    decreases cs, 1
  {
    hide *;
    FollowsInside(s, i + |ListText(cs, op)|);
    PrintableParts(cs, op);
    if |cs| == 1 {
      ListTokensStep(cs, op);
      TokensOfText(s, i, cs[0]);
    } else {
      var u, rest := Text(cs[0]), ListText(cs[1..], op);
      ListRead(s, i, cs, op, u, rest);
      var j := i + |u|;
      TokensOfText(s, i, cs[0]);
      OperatorIsToken(s, j, op);
      TokensOfList(s, j + |op| + 2, cs[1..], op);
      ListTokensStep(cs, op);
      Chain(Tokens(s, i), Tokens(s, j), Tokens(s, j + |op| + 2), Tokens(s, i + |ListText(cs, op)|),
            TokensOf(cs[0]), [OperatorToken(op)], ListTokens(cs[1..], op));
    }
  }

  lemma ListTokensStep(cs: seq<Condition>, op: string)
    requires cs != []
    ensures ListTokens(cs, op) ==
      if |cs| == 1 then TokensOf(cs[0]) else TokensOf(cs[0]) + ([OperatorToken(op)] + ListTokens(cs[1..], op))
  {
    hide TokensOf;
  }

  // ----- Parsing the tokens -----

  /** The parser turns the tokens of a condition back into it, whatever comes after. */
  lemma {:induction false} ParseTree(c: Condition, rest: seq<Token>)
    requires Printable(c)
    ensures ParseCond(TokensOf(c) + rest) == (Some(c), rest)
    decreases c, 0
  {
    hide *;
    if c.expr != "" {
      ParseLeaf(c, rest);
    } else {
      GroupPrintable(c);
      var cs, op, close := c.conditions, c.operator, [RParen] + rest;
      GroupIsCond(c);
      GroupTokens(c, rest);
      ParseList(cs, op, close);
      ParseGroupStep(ListTokens(cs, op) + close, Clause(op, cs), rest);
    }
  }

  lemma ParseLeaf(c: Condition, rest: seq<Token>)
    requires Printable(c) && c.expr != ""
    ensures ParseCond(TokensOf(c) + rest) == (Some(c), rest)
  {
    var ts := TokensOf(c) + rest;
    assert ts[0] == Expr(c.expr) && ts[1..] == rest;
    hide ParseExpr;
  }

  lemma GroupIsCond(c: Condition)
    requires Printable(c) && c.expr == ""
    ensures c == Condition("", c.operator, c.conditions) && (|c.conditions| == 1 ==> c.operator == "AND")
  {}

  lemma GroupTokens(c: Condition, rest: seq<Token>)
    requires c.expr == ""
    ensures TokensOf(c) + rest == [LParen] + (ListTokens(c.conditions, c.operator) + ([RParen] + rest))
    ensures !IsOperator(([RParen] + rest)[0])
  {
    hide ListTokens;
  }

  lemma ParseGroupStep(inner: seq<Token>, clause: Clause, rest: seq<Token>)
    requires ParseExpr(inner) == (clause, [RParen] + rest)
    ensures ParseCond([LParen] + inner) == (Some(Condition("", clause.operator, clause.conditions)), rest)
  {
    hide ParseExpr;
    assert ([LParen] + inner)[1..] == inner;
    assert ([RParen] + rest)[1..] == rest;
  }

  lemma {:induction false} ParseList(cs: seq<Condition>, op: string, rest: seq<Token>)
    requires cs != [] && AllPrintable(cs) && IsOperatorName(op) && (|cs| == 1 ==> op == "AND")
    requires rest == [] || !IsOperator(rest[0])
    ensures ParseExpr(ListTokens(cs, op) + rest) == (Clause(op, cs), rest)
    decreases cs, 1
  {
    hide *;
    PrintableParts(cs, op);
    ListTokensSplit(cs, op, rest);
    ParseTree(cs[0], TailTokens(cs[1..], op) + rest);
    ParseTail(cs[1..], op, Clause("AND", [cs[0]]), rest);
    ParseExprStep(ListTokens(cs, op) + rest, cs[0], TailTokens(cs[1..], op) + rest);
    HeadAndTail(cs);
  }

  lemma HeadAndTail(cs: seq<Condition>)
    requires cs != []
    ensures [cs[0]] + cs[1..] == cs
  {}

  lemma ListTokensSplit(cs: seq<Condition>, op: string, rest: seq<Token>)
    requires cs != []
    ensures ListTokens(cs, op) + rest == TokensOf(cs[0]) + (TailTokens(cs[1..], op) + rest)
  {
    hide TokensOf, TailTokens;
  }

  lemma ParseExprStep(ts: seq<Token>, c: Condition, rest: seq<Token>)
    requires ParseCond(ts) == (Some(c), rest)
    ensures ParseExpr(ts) == ParseMore(Clause("AND", [c]), rest)
  {
    hide ParseCond, ParseMore;
    assert [] + [c] == [c];
  }

  lemma {:induction false} ParseTail(cs: seq<Condition>, op: string, clause: Clause, rest: seq<Token>)
    requires AllPrintable(cs) && IsOperatorName(op) && (rest == [] || !IsOperator(rest[0]))
    ensures ParseMore(clause, TailTokens(cs, op) + rest) ==
      (Clause(if cs == [] then clause.operator else op, clause.conditions + cs), rest)
    decreases cs, 1
  {
    hide *;
    if cs == [] {
      ParseNoMore(clause, op, rest);
    } else {
      PrintableParts(cs, op);
      var ts := TailTokens(cs[1..], op) + rest;
      TailTokensSplit(cs, op, rest);
      ParseTree(cs[0], ts);
      var clause' := Clause(op, clause.conditions + [cs[0]]);
      ParseMoreStep(clause, op, TokensOf(cs[0]) + ts, cs[0], ts);
      ParseTail(cs[1..], op, clause', rest);
      MovedOver(clause.conditions, cs);
    }
  }

  lemma MovedOver(a: seq<Condition>, cs: seq<Condition>)
    requires cs != []
    ensures a + [cs[0]] + cs[1..] == a + cs
  {}

  lemma ParseNoMore(clause: Clause, op: string, rest: seq<Token>)
    requires rest == [] || !IsOperator(rest[0])
    ensures ParseMore(clause, TailTokens([], op) + rest) == (Clause(clause.operator, clause.conditions + []), rest)
  {
    hide ParseCond;
    assert TailTokens([], op) + rest == rest;
    assert clause.conditions + [] == clause.conditions;
  }

  lemma TailTokensSplit(cs: seq<Condition>, op: string, rest: seq<Token>)
    requires cs != []
    ensures TailTokens(cs, op) + rest == [OperatorToken(op)] + (TokensOf(cs[0]) + (TailTokens(cs[1..], op) + rest))
  {
    hide TokensOf;
  }

  lemma ParseMoreStep(clause: Clause, op: string, ts: seq<Token>, c: Condition, rest: seq<Token>)
    requires IsOperatorName(op) && ParseCond(ts) == (Some(c), rest)
    ensures ParseMore(clause, [OperatorToken(op)] + ts) == ParseMore(Clause(op, clause.conditions + [c]), rest)
  {
    hide ParseCond;
    assert ([OperatorToken(op)] + ts)[1..] == ts;
  }

  // ----- Printing a tree -----

  lemma PlainIsWildcardFree(w: string)
    requires forall j :: 0 <= j < |w| ==> w[j] != '@' && w[j] != '%'
    ensures WildcardFree(w)
  {}

  lemma ParameterIsWildcardFree(p: string)
    requires Name(p)
    ensures WildcardFree("@" + p)
  {
    var e := "@" + p;
    assert forall i :: 0 < i < |e| ==> e[i] == p[i - 1];
  }

  /** Between a blank or a parenthesis and a text, or a text and what is no sign, nothing touches. */
  lemma WildcardFreeJoin(u: string, w: string)
    requires WildcardFree(u) && WildcardFree(w) && u != "" && w != ""
    requires (w[0] != '@' && w[0] != '%') || u[|u| - 1] in " ("
    ensures WildcardFree(u + w)
  {
    var e := u + w;
    forall i | 0 < i < |e| ensures (e[i] == '@' ==> !IsWild(e[i - 1])) && (e[i] == '%' ==> !IsNameChar(e[i - 1])) {
      if i < |u| {
        assert e[i] == u[i] && e[i - 1] == u[i - 1];
      } else if i > |u| {
        assert e[i] == w[i - |u|] && e[i - 1] == w[i - |u| - 1];
      }
    }
  }

  lemma WildcardFreeBlank(u: string, w: string)
    requires WildcardFree(u) && WildcardFree(w) && u != "" && w != ""
    ensures WildcardFree(u + (" " + w)) && u + (" " + w) != ""
  {
    PlainIsWildcardFree(" ");
    hide WildcardFree;
    WildcardFreeJoin(" ", w);
    WildcardFreeJoin(u, " " + w);
  }

  lemma LeafIsWildcardFree(l: Leaf)
    requires ValidLeaf(l)
    ensures WildcardFree(LeafText(l))
  {
    hide WildcardFree, Word, Name, Spells;
    assert l.column != "" by { WordIsNotEmpty(l.column); }
    PlainIsWildcardFree(l.column);
    match l
    case Compare(column, op, param) =>
      WordIsNotEmpty(op);
      PlainIsWildcardFree(op);
      ParameterIsWildcardFree(param);
      WildcardFreeBlank(op, "@" + param);
      WildcardFreeBlank(column, op + (" " + ("@" + param)));
    case Between(column, between, low, and, high) =>
      KeywordIsWildcardFree(between, "BETWEEN");
      KeywordIsWildcardFree(and, "AND");
      ParameterIsWildcardFree(low);
      ParameterIsWildcardFree(high);
      WildcardFreeBlank(and, "@" + high);
      var e := and + (" " + ("@" + high));
      WildcardFreeBlank("@" + low, e);
      WildcardFreeBlank(between, ("@" + low) + (" " + e));
      WildcardFreeBlank(column, between + (" " + (("@" + low) + (" " + e))));
    case InList(column, within, param) =>
      KeywordIsWildcardFree(within, if Spells(within, "IN") then "IN" else "NOT IN");
      PlainIsWildcardFree("(");
      PlainIsWildcardFree(")");
      ParameterIsWildcardFree(param);
      WildcardFreeJoin("@" + param, ")");
      WildcardFreeJoin("(", ("@" + param) + ")");
      WildcardFreeBlank(within, "(" + (("@" + param) + ")"));
      WildcardFreeBlank(column, within + (" " + ("(" + (("@" + param) + ")"))));
  }

  lemma KeywordIsPlain(w: string, k: string)
    requires Spells(w, k) && InCapitals(k)
    ensures forall j :: 0 <= j < |w| ==> w[j] != '@' && w[j] != '%'
  {}

  lemma KeywordIsWildcardFree(w: string, k: string)
    requires Spells(w, k) && InCapitals(k) && k != ""
    ensures WildcardFree(w) && w != ""
  {
    KeywordIsPlain(w, k);
    PlainIsWildcardFree(w);
  }

  lemma WordIsNotEmpty(w: string)
    requires Word(w)
    ensures w != ""
  {}

  lemma {:induction false} PrintsText(c: Condition)
    requires Printable(c)
    ensures Rendered(c) == Sql(Text(c))
    decreases c, 0
  {
    hide *;
    if c.expr != "" {
      PrintsLeaf(c);
    } else {
      GroupPrintable(c);
      PrintsParts(c.conditions);
      PartsJoin(c.conditions, c.operator);
      PrintsGroup(c);
    }
  }

  lemma PrintsLeaf(c: Condition)
    requires Printable(c) && c.expr != ""
    ensures Rendered(c) == Sql(Text(c))
  {
    var l :| ValidLeaf(l) && LeafText(l) == c.expr;
    hide ValidLeaf, LeafText, Converted, WildcardFree;
    LeafIsWildcardFree(l);
    WithoutWildcardsNothingChanges(c.expr);
  }

  function Texts(cs: seq<Condition>): seq<string> {
    if cs == [] then [] else [Text(cs[0])] + Texts(cs[1..])
  }

  lemma {:induction false} PrintsParts(cs: seq<Condition>)
    requires AllPrintable(cs)
    ensures RenderedParts(cs) == Parts(Texts(cs))
    decreases cs, 1
  {
    if cs != [] {
      hide Text, Rendered;
      PrintsText(cs[0]);
      PrintsParts(cs[1..]);
    }
  }

  lemma {:induction false} PartsJoin(cs: seq<Condition>, op: string)
    ensures Join(Texts(cs), " " + op + " ") == ListText(cs, op)
  {
    hide Text;
    if |cs| > 1 {
      PartsJoin(cs[1..], op);
      assert Texts(cs) == [Text(cs[0])] + Texts(cs[1..]);
      TextsLength(cs[1..]);
      assert Texts(cs)[1..] == Texts(cs[1..]);
    }
  }

  lemma TextsLength(cs: seq<Condition>)
    ensures |Texts(cs)| == |cs|
  {}

  lemma PrintsGroup(c: Condition)
    requires c.expr == "" && c.conditions != [] && IsOperatorName(c.operator)
    requires RenderedParts(c.conditions) == Parts(Texts(c.conditions))
    requires Join(Texts(c.conditions), " " + c.operator + " ") == ListText(c.conditions, c.operator)
    ensures Rendered(c) == Sql(Text(c))
  {
    hide RenderedParts, Texts, Join, ListText;
  }

  // ----- The round trip -----

  /** Parsing the SQL of a condition gives that condition back, as the one element of an AND clause. */
  lemma ParsingUndoesPrinting(c: Condition)
    requires Printable(c)
    ensures Rendered(c).Sql?
    ensures Parsed(Rendered(c).text) == Some(Clause("AND", [c]))
  {
    hide *;
    var s := Text(c);
    PrintsText(c);
    WholeText(c);
    TokensOfText(s, 0, c);
    NothingAtEnd(s);
    ParseTree(c, []);
    ParseExprStep(Tokens(s, 0), c, []);
    ParsedWhole(c, s);
  }

  lemma WholeText(c: Condition)
    requires Printable(c)
    ensures var s := Text(c);
      s != "" && TrimSpace(s) == s && Reads(s, 0, s) && Follows(s, 0 + |s|)
  {
    var s := Text(c);
    TextEnds(c);
    hide TrimSpace, LeafText, ValidLeaf, Printable, Text;
    TrimKeeps(s);
  }

  lemma TextEnds(c: Condition)
    requires Printable(c)
    ensures var s := Text(c); s != "" && !IsSpace(s[0]) && !IsSpace(s[|s| - 1])
  {
    hide LeafText, ValidLeaf, ListText;
    if c.expr != "" {
      var l :| ValidLeaf(l) && LeafText(l) == c.expr;
      LeafEnds(l);
    }
  }

  lemma NothingAtEnd(s: string)
    ensures Tokens(s, |s|) == []
  {}

  lemma ParsedWhole(c: Condition, s: string)
    requires s != "" && TrimSpace(s) == s
    requires ParseExpr(Tokens(s, 0)) == ParseMore(Clause("AND", [c]), [])
    ensures Parsed(s) == Some(Clause("AND", [c]))
  {
    hide TrimSpace, Tokens, ParseExpr;
  }
}
