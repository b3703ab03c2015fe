/** What the lexer skips, what it trims, and lists with parentheses in them
    (`tool/cmd/gen-go-db/excel/parser_where.go`). */
module WhereNested {
  import opened Options
  import opened WhereLexer
  import opened WhereParser
  import opened WhereScan
  import opened WhereRoundTrip

  // ----- Between the tokens -----

  lemma SkipsOne(s: string, i: nat)
    requires i < |s| && s[i] in " \t,"
    ensures Tokens(s, i) == Tokens(s, i + 1)
  {
    hide TokenAt;
    assert SkipBlanks(s, i) == SkipBlanks(s, i + 1);
    hide SkipBlanks;
  }

  /** Blanks, tabs and commas between tokens do not matter. */
  lemma {:induction false} SeparatorsAreSkipped(s: string, i: nat, j: nat)
    requires i <= j <= |s| && forall k :: i <= k < j ==> s[k] in " \t,"
    ensures Tokens(s, i) == Tokens(s, j)
    decreases j - i
  {
    hide Tokens;
    if i < j {
      SkipsOne(s, i);
      SeparatorsAreSkipped(s, i + 1, j);
    }
  }

  /** Nothing else is: at any other character a token begins. */
  lemma OtherCharactersBeginTokens(s: string, i: nat)
    requires i < |s| && s[i] !in " \t,"
    ensures TokenAt(s, i).Got? && Tokens(s, i) == [TokenAt(s, i).token] + Tokens(s, TokenAt(s, i).next)
  {
    hide TokenAt;
  }

  function KeywordToken(k: string): Token
    requires k in ["AND", "OR", "IN", "NOT IN"]
  {
    if k == "AND" then And else if k == "OR" then Or else if k == "IN" then In else NotIn
  }

  /** A keyword between blanks, in any case, is a token where an expression could begin. */
  lemma KeywordsAreTokens(s: string, i: nat, k: string)
    requires k in ["AND", "OR", "IN", "NOT IN"] && Spelled(s, i, k)
    requires 0 < i && s[i - 1] == ' ' && i + |k| < |s| && s[i + |k|] == ' '
    ensures TokenAt(s, i) == Got(KeywordToken(k), i + |k|)
  {
    FirstLetter(s, i, k);
    KeywordRead(s, i, k, true);
    if k != "AND" {
      OneKeyword(s, i, k, true, "AND", true);
    }
    if k != "OR" {
      OneKeyword(s, i, k, true, "OR", true);
    }
    if k != "NOT IN" {
      OneKeyword(s, i, k, true, "NOT IN", true);
    }
    hide Keyword, Scan, TrimSpace, Spelled;
  }

  // ----- White space around expressions -----

  /** The white space of Unicode. */
  predicate IsWhite(c: char) {
    c as int in [9, 10, 11, 12, 13, 0x20, 0x85, 0xA0, 0x1680, 0x2000, 0x2001, 0x2002, 0x2003, 0x2004, 0x2005,
                 0x2006, 0x2007, 0x2008, 0x2009, 0x200A, 0x2028, 0x2029, 0x202F, 0x205F, 0x3000]
  }

  lemma WhiteIsSpace(c: char)
    ensures IsWhite(c) <==> IsSpace(c)
  {}

  lemma {:induction false} TrimmedLeft(white: string, t: string)
    requires (forall k :: 0 <= k < |white| ==> IsSpace(white[k])) && (t != "" ==> !IsSpace(t[0]))
    ensures TrimLeft(white + t) == t
    decreases |white|
  {
    hide IsSpace;
    if white == "" {
      assert white + t == t;
    } else {
      assert (white + t)[1..] == white[1..] + t;
      TrimmedLeft(white[1..], t);
    }
  }

  lemma {:induction false} TrimmedRight(t: string, white: string)
    requires (forall k :: 0 <= k < |white| ==> IsSpace(white[k])) && (t != "" ==> !IsSpace(t[|t| - 1]))
    ensures TrimRight(t + white) == t
    decreases |white|
  {
    hide IsSpace;
    if white == "" {
      assert t + white == t;
    } else {
      var n := |white| - 1;
      assert (t + white)[..|t| + n] == t + white[..n];
      TrimmedRight(t, white[..n]);
    }
  }

  /** White space is trimmed off both ends, and nothing else. */
  lemma TrimsWhiteSpace(left: string, t: string, right: string)
    requires (forall k :: 0 <= k < |left| ==> IsWhite(left[k])) && (forall k :: 0 <= k < |right| ==> IsWhite(right[k]))
    requires t != "" && !IsWhite(t[0]) && !IsWhite(t[|t| - 1])
    ensures TrimSpace(left + (t + right)) == t
  {
    hide IsWhite, IsSpace, TrimLeft, TrimRight;
    forall c ensures IsWhite(c) <==> IsSpace(c) {
      WhiteIsSpace(c);
    }
    TrimmedLeft(left, t + right);
    TrimmedRight(t, right);
  }

  // ----- Parentheses within a list -----

  /** Behind the parenthesis that closes the one open at `i`, `depth` further ones within it. */
  function Behind(s: string, i: nat, depth: nat): (r: nat)
    requires i <= |s|
    ensures i <= r <= |s|
    decreases |s| - i
  {
    if i == |s| then i
    else if s[i] == '(' then Behind(s, i + 1, depth + 1)
    else if s[i] == ')' then if depth == 0 then i + 1 else Behind(s, i + 1, depth - 1)
    else Behind(s, i + 1, depth)
  }

  lemma {:induction false} NoParentheses(s: string, i: nat, j: nat, depth: nat)
    requires i <= j <= |s| && forall k :: i <= k < j ==> s[k] != '(' && s[k] != ')'
    ensures Behind(s, i, depth) == Behind(s, j, depth)
    decreases j - i
  {
    if i < j {
      NoParentheses(s, i + 1, j, depth);
    }
  }

  /** A keyword holds no parenthesis. */
  lemma KeywordHoldsNone(s: string, i: nat, k: string, paren: bool, depth: nat)
    requires Keyword(s, i, k, paren) && InCapitals(k)
    ensures Behind(s, i, depth) == Behind(s, i + |k|, depth)
  {
    hide Behind;
    forall p | i <= p < i + |k| ensures s[p] != '(' && s[p] != ')' {
      assert Upper(s[i + (p - i)]) == k[p - i];
    }
    NoParentheses(s, i, i + |k|, depth);
  }

  lemma CapitalKeywords()
    ensures InCapitals("BETWEEN") && InCapitals("IN") && InCapitals("NOT IN") && InCapitals("AND") && InCapitals("OR")
  {}

  /** Inside the parentheses of a list the scan goes on to the matching one, whatever keywords stand between. */
  lemma {:induction false} ScanInList(s: string, i: nat, m: Mode)
    requires i <= |s| && m.inIn && m.entered
    ensures Scan(s, i, m) == Behind(s, i, m.depth)
    decreases |s| - i
  {
    hide Keyword, Scan;
    ScanStep(s, i, m);
    if i < |s| {
      var move := ScanMove(s, i, m);
      CapitalKeywords();
      if move.Go? {
        ScanInList(s, move.to, move.mode);
      }
      hide InCapitals, Behind;
      if Keyword(s, i, "BETWEEN", false) {
        KeywordHoldsNone(s, i, "BETWEEN", false, m.depth);
      } else if Keyword(s, i, "IN", true) {
        KeywordHoldsNone(s, i, "IN", true, m.depth);
      } else if Keyword(s, i, "NOT IN", true) {
        KeywordHoldsNone(s, i, "NOT IN", true, m.depth);
      } else if Keyword(s, i, "AND", true) {
        KeywordHoldsNone(s, i, "AND", true, m.depth);
      } else if Keyword(s, i, "OR", true) {
        KeywordHoldsNone(s, i, "OR", true, m.depth);
      } else {
        BehindStep(s, i, m.depth);
      }
    }
  }

  lemma BehindStep(s: string, i: nat, depth: nat)
    requires i < |s|
    ensures Behind(s, i, depth) ==
      if s[i] == '(' then Behind(s, i + 1, depth + 1)
      else if s[i] == ')' then if depth == 0 then i + 1 else Behind(s, i + 1, depth - 1)
      else Behind(s, i + 1, depth)
  {}

  /** Outside of a list an expression ends in front of a parenthesis. */
  lemma ParenthesisEndsExpression(s: string, i: nat, m: Mode)
    requires i < |s| && (s[i] == '(' || s[i] == ')') && !m.inIn
    ensures Scan(s, i, m) == i
  {
    NoKeywordAt(s, i);
    hide Keyword;
  }

  /** A column compared with a list, here a subquery or whatever else, is one expression up to the parenthesis that
      matches the one behind IN; AND and OR within it separate nothing. */
  lemma ListIsOneExpression(s: string, i: nat, column: string, within: string)
    requires Word(column) && (Spells(within, "IN") || Spells(within, "NOT IN"))
    requires Reads(s, i, column + (" " + (within + (" " + "("))))
    ensures var open := i + |column| + |within| + 2;
      && open < |s| && s[open] == '('
      && TokenAt(s, i) == Got(Expr(TrimSpace(s[i..Behind(s, open + 1, 0)])), Behind(s, open + 1, 0))
  {
    hide Reads, Word, Spells, Spelled, Scan, ScanMove, Behind, TrimSpace, Keyword;
    var b := i + |column| + 1;
    ScanWordBlank(s, i, column, within + (" " + "("), START);
    BlankBehind(s, b, within, "(");
    if Spells(within, "IN") {
      ReadIsSpelled(s, b, within, "IN");
      ScanIn(s, b, START);
    } else {
      ReadIsSpelled(s, b, within, "NOT IN");
      ScanNotIn(s, b, START);
    }
    var m, open := START.(inIn := true), b + |within| + 1;
    ScanBlank(s, b + |within|, m);
    OpenThere(s, open);
    ScanOpen(s, open, m);
    ScanInList(s, open + 1, m.(entered := true));
    WordBegins(s, i, column, within);
    ExpressionToken(s, i, Scan(s, i, START), TrimSpace(s[i..Scan(s, i, START)]));
  }

  lemma OpenThere(s: string, i: nat)
    requires Reads(s, i, "(")
    ensures i < |s| && s[i] == '('
  {
    assert s[i + 0] == "("[0];
  }

  lemma WordBegins(s: string, i: nat, column: string, within: string)
    requires Word(column) && Reads(s, i, column + (" " + (within + (" " + "("))))
    ensures i < |s| && s[i] != '(' && s[i] != ')'
    ensures !Keyword(s, i, "IN", true) && !Keyword(s, i, "NOT IN", true)
    ensures !Keyword(s, i, "AND", true) && !Keyword(s, i, "OR", true)
  {
    BlankBehind(s, i, column, within + (" " + "("));
    NoKeywordAtWord(s, i, column);
    hide Keyword;
    assert s[i + 0] == column[0];
  }

  // ----- Blank texts and missing parentheses -----

  lemma {:induction false} WhiteIsTrimmedAway(s: string)
    requires forall k :: 0 <= k < |s| ==> IsSpace(s[k])
    ensures TrimLeft(s) == ""
    decreases |s|
  {
    hide IsSpace;
    if s != "" {
      WhiteIsTrimmedAway(s[1..]);
    }
  }

  lemma {:induction false} TrimLeftKeeps(s: string, k: nat)
    requires k < |s| && !IsSpace(s[k])
    ensures TrimLeft(s) != "" && !IsSpace(TrimLeft(s)[0])
    decreases |s|
  {
    hide IsSpace;
    if IsSpace(s[0]) {
      assert s[1..][k - 1] == s[k];
      TrimLeftKeeps(s[1..], k - 1);
    }
  }

  lemma {:induction false} TrimRightKeeps(s: string)
    requires s != "" && !IsSpace(s[0])
    ensures TrimRight(s) != ""
    decreases |s|
  {
    hide IsSpace;
    if IsSpace(s[|s| - 1]) {
      assert s[..|s| - 1][0] == s[0];
      TrimRightKeeps(s[..|s| - 1]);
    }
  }

  /** Just a text of white space parses to nothing. */
  lemma BlankTextIsNothing(s: string)
    ensures Parsed(s) == None <==> forall k :: 0 <= k < |s| ==> IsWhite(s[k])
  {
    hide IsWhite, IsSpace, TrimLeft, TrimRight, Tokens, ParseExpr;
    forall c ensures IsWhite(c) <==> IsSpace(c) {
      WhiteIsSpace(c);
    }
    if forall k :: 0 <= k < |s| ==> IsWhite(s[k]) {
      WhiteIsTrimmedAway(s);
      NothingTrimmed();
    } else {
      var k :| 0 <= k < |s| && !IsWhite(s[k]);
      TrimLeftKeeps(s, k);
      TrimRightKeeps(TrimLeft(s));
    }
  }

  lemma NothingTrimmed()
    ensures TrimRight("") == ""
  {}

  /** A group whose closing parenthesis is missing is read all the same, and what follows is left for others. */
  lemma MissingParenthesisIsForgiven(cs: seq<Condition>, op: string, rest: seq<Token>)
    requires cs != [] && AllPrintable(cs) && IsOperatorName(op) && (|cs| == 1 ==> op == "AND")
    requires rest == [] || (!IsOperator(rest[0]) && !rest[0].RParen?)
    ensures ParseCond([LParen] + (ListTokens(cs, op) + rest)) == (Some(Condition("", op, cs)), rest)
  {
    hide ParseExpr, ListTokens, AllPrintable;
    ParseList(cs, op, rest);
    var inner := ListTokens(cs, op) + rest;
    assert ([LParen] + inner)[1..] == inner;
  }
}
