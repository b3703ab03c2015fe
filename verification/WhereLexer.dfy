/** The lexer of WHERE conditions (`tool/cmd/gen-go-db/excel/parser_where.go`). */
module WhereLexer {

  // ----- Characters -----

  /** The upper-case form, as far as the letters of the keywords go: of the characters outside ASCII only
      the dotless i has one of them as its upper case. */
  function Upper(c: char): char {
    if 'a' <= c <= 'z' then c - 'a' + 'A' else if c == '\U{0131}' then 'I' else c
  }

  /** The white space trimmed off the ends of a token. */
  predicate IsSpace(c: char) {
    '\t' <= c <= '\r' || c == ' ' || c == '\U{0085}' || c == '\U{00A0}' || c == '\U{1680}'
    || '\U{2000}' <= c <= '\U{200A}' || c == '\U{2028}' || c == '\U{2029}' || c == '\U{202F}'
    || c == '\U{205F}' || c == '\U{3000}'
  }

  function TrimLeft(s: string): string {
    if s != "" && IsSpace(s[0]) then TrimLeft(s[1..]) else s
  }

  function TrimRight(s: string): string {
    if s != "" && IsSpace(s[|s| - 1]) then TrimRight(s[..|s| - 1]) else s
  }

  function TrimSpace(s: string): string {
    TrimRight(TrimLeft(s))
  }

  predicate IsBlank(c: char) {
    c == ' ' || c == '\t'
  }

  predicate EndsWord(s: string, i: nat)
    requires i <= |s|
  {
    i == 0 || IsBlank(s[i - 1]) || s[i - 1] == ')'
  }

  predicate StartsWord(s: string, i: nat, paren: bool)
    requires i <= |s|
  {
    i == |s| || IsBlank(s[i]) || (paren && s[i] == '(')
  }

  /** The keyword stands at `i` in any case, with a boundary on both sides. A parenthesis may follow a
      keyword other than BETWEEN. */
  predicate Keyword(s: string, i: nat, k: string, paren: bool) {
    && i + |k| <= |s|
    && (forall j :: 0 <= j < |k| ==> Upper(s[i + j]) == k[j])
    && EndsWord(s, i) && StartsWord(s, i + |k|, paren)
  }

  // ----- Tokens -----

  datatype Token = Expr(text: string) | And | Or | In | NotIn | LParen | RParen

  /** Whether a scan is inside BETWEEN before its AND, or inside the parentheses of IN and how deep. */
  datatype Mode = Mode(inBetween: bool, inIn: bool, depth: nat, entered: bool)

  const START := Mode(false, false, 0, false)

  /** What one round of the scan does: the end of the expression, or how far to go on and how. */
  datatype Move = Stop(at: nat) | Go(to: nat, mode: Mode)

  function ScanMove(s: string, i: nat, m: Mode): (r: Move)
    requires i < |s|
    ensures if r.Stop? then i <= r.at <= |s| else i < r.to <= |s|
  {
    if Keyword(s, i, "BETWEEN", false) then Go(i + 7, m.(inBetween := true))
    else if Keyword(s, i, "IN", true) then Go(i + 2, m.(inIn := true))
    else if Keyword(s, i, "NOT IN", true) then Go(i + 6, m.(inIn := true))
    else if Keyword(s, i, "AND", true) then
      if m.inBetween then Go(i + 3, m.(inBetween := false))
      else if m.inIn then Go(i + 3, m)
      else Stop(i)
    else if Keyword(s, i, "OR", true) then
      if m.inIn then Go(i + 2, m) else Stop(i)
    else if s[i] == '(' then
      if !m.inIn then Stop(i)
      else if m.entered then Go(i + 1, m.(depth := m.depth + 1))
      else Go(i + 1, m.(entered := true))
    else if s[i] == ')' then
      if !m.inIn then Stop(i)
      else if m.depth == 0 then Stop(i + 1)
      else Go(i + 1, m.(depth := m.depth - 1))
    else Go(i + 1, m)
  }

  /** Where the expression that is being scanned at `i` ends. */
  function Scan(s: string, i: nat, m: Mode): (end: nat)
    requires i <= |s|
    ensures i <= end <= |s|
    decreases |s| - i
  {
    if i == |s| then i
    else match ScanMove(s, i, m)
      case Stop(at) => at
      case Go(to, m') => Scan(s, to, m')
  }

  lemma ScanStep(s: string, i: nat, m: Mode)
    requires i <= |s|
    ensures Scan(s, i, m) ==
      if i == |s| then i
      else if ScanMove(s, i, m).Stop? then ScanMove(s, i, m).at
      else Scan(s, ScanMove(s, i, m).to, ScanMove(s, i, m).mode)
  {}

  function SkipBlanks(s: string, i: nat): (r: nat)
    requires i <= |s|
    ensures i <= r <= |s| && (r < |s| ==> !IsBlank(s[r]) && s[r] != ',')
    decreases |s| - i
  {
    if i < |s| && (IsBlank(s[i]) || s[i] == ',') then SkipBlanks(s, i + 1) else i
  }

  datatype Lexed = End | Got(token: Token, next: nat)

  /** The token at `i`, where neither a blank nor a comma stands. */
  function TokenAt(s: string, i: nat): (r: Lexed)
    requires i < |s|
    ensures r.Got? && i <= r.next <= |s|
  {
    if s[i] == '(' then Got(LParen, i + 1)
    else if s[i] == ')' then Got(RParen, i + 1)
    else if Keyword(s, i, "AND", true) then Got(And, i + 3)
    else if Keyword(s, i, "OR", true) then Got(Or, i + 2)
    else if Keyword(s, i, "NOT IN", true) then Got(NotIn, i + 6)
    else if Keyword(s, i, "IN", true) then Got(In, i + 2)
    else
      var end := Scan(s, i, START);
      Got(Expr(TrimSpace(s[i..end])), end)
  }

  function NextToken(s: string, i: nat): (r: Lexed)
    requires i <= |s|
  {
    var k := SkipBlanks(s, i);
    if k == |s| then End else TokenAt(s, k)
  }

  /** The lexer always gets on: a token takes at least one character. */
  lemma NextTokenAdvances(s: string, i: nat)
    requires i <= |s|
    ensures NextToken(s, i).Got? ==> i < NextToken(s, i).next <= |s|
  {
    hide Keyword, TrimSpace;
    var k := SkipBlanks(s, i);
    if k < |s| && Scan(s, k, START) == k {
      assert ScanMove(s, k, START).Stop?;
    }
  }

  /** All tokens from `i` on. */
  function Tokens(s: string, i: nat): seq<Token>
    requires i <= |s|
    decreases |s| - i
  {
    NextTokenAdvances(s, i);
    match NextToken(s, i)
    case End => []
    case Got(token, next) => [token] + Tokens(s, next)
  }

  // ----- The lexer of the source -----

  class Lexer {
    const runes: string
    var pos: nat

    predicate Valid()
      reads this
    {
      pos <= |runes|
    }

    constructor (input: string)
      ensures Valid() && runes == input && pos == 0
    {
      runes, pos := input, 0;
    }

    method At(k: string, paren: bool) returns (found: bool)
      requires Valid()
      ensures found == Keyword(runes, pos, k, paren)
    {
      if pos + |k| > |runes| {
        return false;
      }
      var j := 0;
      while j < |k|
        invariant 0 <= j <= |k|
        invariant forall i :: 0 <= i < j ==> Upper(runes[pos + i]) == k[i]
      {
        if Upper(runes[pos + j]) != k[j] {
          return false;
        }
        j := j + 1;
      }
      return EndsWord(runes, pos) && StartsWord(runes, pos + |k|, paren);
    }

    /** The next token, or nothing at the end of the text. */
    method Next() returns (r: Lexed)
      requires Valid()
      modifies this
      ensures Valid() && pos >= old(pos)
      ensures r == NextToken(runes, old(pos))
      ensures pos == if r.Got? then r.next else |runes|
      ensures r.Got? ==> pos > old(pos)
    {
      hide Keyword, TrimSpace;
      NextTokenAdvances(runes, pos);
      while pos < |runes| && (IsBlank(runes[pos]) || runes[pos] == ',')
        invariant old(pos) <= pos <= |runes|
        invariant SkipBlanks(runes, pos) == SkipBlanks(runes, old(pos))
      {
        pos := pos + 1;
      }
      if pos >= |runes| {
        return End;
      }
      if runes[pos] == '(' {
        pos := pos + 1;
        return Got(LParen, pos);
      }
      if runes[pos] == ')' {
        pos := pos + 1;
        return Got(RParen, pos);
      }
      var found := At("AND", true);
      if found {
        pos := pos + 3;
        return Got(And, pos);
      }
      found := At("OR", true);
      if found {
        pos := pos + 2;
        return Got(Or, pos);
      }
      found := At("NOT IN", true);
      if found {
        pos := pos + 6;
        return Got(NotIn, pos);
      }
      found := At("IN", true);
      if found {
        pos := pos + 2;
        return Got(In, pos);
      }
      var start := pos;
      ScanExpression();
      return Got(Expr(TrimSpace(runes[start..pos])), pos);
    }

    /** The loop over the characters of an expression. */
    method ScanExpression()
      requires Valid()
      modifies this
      ensures Valid() && pos == Scan(runes, old(pos), START)
    {
      hide Keyword, Scan;
      var inBetween, inIn, inInOpened := false, false, false;
      var inInDepth: nat := 0;
      while pos < |runes|
        invariant pos <= |runes|
        invariant Scan(runes, pos, Mode(inBetween, inIn, inInDepth, inInOpened)) == Scan(runes, old(pos), START)
        decreases |runes| - pos
      {
        ScanStep(runes, pos, Mode(inBetween, inIn, inInDepth, inInOpened));
        var found := At("BETWEEN", false);
        if found {
          inBetween := true;
          pos := pos + 7;
          continue;
        }
        found := At("IN", true);
        if found {
          inIn := true;
          pos := pos + 2;
          continue;
        }
        found := At("NOT IN", true);
        if found {
          inIn := true;
          pos := pos + 6;
          continue;
        }
        found := At("AND", true);
        if found {
          if inBetween {
            pos := pos + 3;
            inBetween := false;
            continue;
          }
          if inIn {
            pos := pos + 3;
            continue;
          }
          break;
        }
        found := At("OR", true);
        if found {
          if inIn {
            pos := pos + 2;
            continue;
          }
          break;
        }
        if runes[pos] == '(' {
          if !inIn {
            break;
          }
          if inInOpened {
            inInDepth := inInDepth + 1;
          } else {
            inInOpened := true;
          }
          pos := pos + 1;
          continue;
        }
        if runes[pos] == ')' {
          if !inIn {
            break;
          }
          if inInDepth == 0 {
            pos := pos + 1;
            inIn := false;
            break;
          }
          inInDepth := inInDepth - 1;
        }
        pos := pos + 1;
      }
      if pos == |runes| {
        ScanStep(runes, pos, Mode(inBetween, inIn, inInDepth, inInOpened));
      }
    }
  }
}
