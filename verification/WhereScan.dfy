/** How the lexer reads the expressions the printer writes. */
module WhereScan {
  import opened WhereLexer

  /** `w` stands in `s` at `i`. */
  predicate Reads(s: string, i: nat, w: string) {
    i + |w| <= |s| && forall j :: 0 <= j < |w| ==> s[i + j] == w[j]
  }

  lemma ReadsParts(s: string, i: nat, u: string, w: string)
    requires Reads(s, i, u + w)
    ensures Reads(s, i, u) && Reads(s, i + |u|, w)
  {
    assert forall j :: 0 <= j < |u| ==> (u + w)[j] == u[j];
    forall j | 0 <= j < |w| ensures s[i + |u| + j] == w[j] {
      assert (u + w)[|u| + j] == w[j];
    }
  }

  lemma ReadsSlice(s: string, i: nat, w: string)
    requires Reads(s, i, w)
    ensures s[i..i + |w|] == w
  {}

  // ----- Words -----

  /** A character inside a word: nothing the lexer stops at. */
  predicate IsSolid(c: char) {
    !IsSpace(c) && c != '(' && c != ')'
  }

  predicate SameLetters(w: string, k: string) {
    |w| == |k| && forall j :: 0 <= j < |w| ==> Upper(w[j]) == k[j]
  }

  /** A word of a condition that is none of the keywords, in any case. */
  predicate Word(w: string) {
    && w != "" && (forall j :: 0 <= j < |w| ==> IsSolid(w[j])) && w[0] != ','
    && !SameLetters(w, "AND") && !SameLetters(w, "OR") && !SameLetters(w, "IN")
    && !SameLetters(w, "NOT") && !SameLetters(w, "BETWEEN")
  }

  predicate WordEnds(s: string, i: nat)
    requires i <= |s|
  {
    i == |s| || s[i] == ' ' || s[i] == ')'
  }

  lemma SolidThere(s: string, i: nat, w: string)
    requires Reads(s, i, w) && forall j :: 0 <= j < |w| ==> IsSolid(w[j])
    ensures forall p :: i <= p < i + |w| ==> IsSolid(s[p])
  {
    forall p | i <= p < i + |w| ensures IsSolid(s[p]) {
      assert s[i + (p - i)] == w[p - i];
    }
  }

  lemma LettersThere(s: string, i: nat, k: string, paren: bool)
    requires Keyword(s, i, k, paren)
    ensures forall p :: i <= p < i + |k| ==> Upper(s[p]) == k[p - i]
  {
    forall p | i <= p < i + |k| ensures Upper(s[p]) == k[p - i] {
      assert Upper(s[i + (p - i)]) == k[p - i];
    }
  }

  /** Where a keyword without a blank is read, the word is that keyword. */
  lemma KeywordIsWord(s: string, i: nat, w: string, k: string, paren: bool)
    requires Reads(s, i, w) && WordEnds(s, i + |w|)
    requires forall j :: 0 <= j < |w| ==> IsSolid(w[j])
    requires forall j :: 0 <= j < |k| ==> k[j] != ' ' && k[j] != ')'
    requires Keyword(s, i, k, paren)
    ensures SameLetters(w, k)
  {
    SolidThere(s, i, w);
    LettersThere(s, i, k, paren);
    assert forall j :: 0 <= j < |w| && j < |k| ==> Upper(w[j]) == Upper(s[i + j]) == k[j];
  }

  lemma NotInBeginsWithNot(s: string, i: nat, w: string, paren: bool)
    requires Reads(s, i, w) && WordEnds(s, i + |w|)
    requires forall j :: 0 <= j < |w| ==> IsSolid(w[j])
    requires Keyword(s, i, "NOT IN", paren)
    ensures SameLetters(w, "NOT")
  {
    var k := "NOT IN";
    SolidThere(s, i, w);
    LettersThere(s, i, k, paren);
    assert Upper(s[i + 3]) == k[3] == ' ';
    assert forall j :: 0 <= j < 3 ==> Upper(s[i + j]) == k[j] == "NOT"[j] && k[j] != ' ';
  }

  lemma NoKeywordAtWord(s: string, i: nat, w: string)
    requires Reads(s, i, w) && WordEnds(s, i + |w|) && Word(w)
    ensures !Keyword(s, i, "BETWEEN", false) && !Keyword(s, i, "IN", true) && !Keyword(s, i, "NOT IN", true)
    ensures !Keyword(s, i, "AND", true) && !Keyword(s, i, "OR", true)
  {
    hide Keyword, SameLetters;
    if Keyword(s, i, "BETWEEN", false) { KeywordIsWord(s, i, w, "BETWEEN", false); }
    if Keyword(s, i, "IN", true) { KeywordIsWord(s, i, w, "IN", true); }
    if Keyword(s, i, "AND", true) { KeywordIsWord(s, i, w, "AND", true); }
    if Keyword(s, i, "OR", true) { KeywordIsWord(s, i, w, "OR", true); }
    if Keyword(s, i, "NOT IN", true) { NotInBeginsWithNot(s, i, w, true); }
  }

  /** Inside a word no keyword begins. */
  lemma {:induction false} ScanInside(s: string, i: nat, end: nat, m: Mode)
    requires 0 < i <= end <= |s| && IsSolid(s[i - 1])
    requires forall j :: i <= j < end ==> IsSolid(s[j])
    ensures Scan(s, i, m) == Scan(s, end, m)
    decreases end - i
  {
    if i < end {
      NoKeywordInside(s, i);
      hide Keyword;
      ScanInside(s, i + 1, end, m);
    }
  }

  lemma NoKeywordInside(s: string, i: nat)
    requires 0 < i <= |s| && IsSolid(s[i - 1])
    ensures !Keyword(s, i, "BETWEEN", false) && !Keyword(s, i, "IN", true) && !Keyword(s, i, "NOT IN", true)
    ensures !Keyword(s, i, "AND", true) && !Keyword(s, i, "OR", true)
  {}

  /** The scan passes over a word. */
  lemma ScanWord(s: string, i: nat, w: string, m: Mode)
    requires Reads(s, i, w) && WordEnds(s, i + |w|) && Word(w)
    ensures Scan(s, i, m) == Scan(s, i + |w|, m)
  {
    hide Keyword, SameLetters;
    NoKeywordAtWord(s, i, w);
    assert s[i + 0] == w[0];
    forall j | i + 1 <= j < i + |w| ensures IsSolid(s[j]) {
      assert s[i + (j - i)] == w[j - i];
    }
    ScanInside(s, i + 1, i + |w|, m);
  }

  lemma OtherFirstLetter(s: string, i: nat, k: string, paren: bool)
    requires i < |s| && k != "" && Upper(s[i]) != k[0]
    ensures !Keyword(s, i, k, paren)
  {
    assert Upper(s[i + 0]) == Upper(s[i]);
  }

  /** The scan passes over a blank. */
  lemma ScanBlank(s: string, i: nat, m: Mode)
    requires i < |s| && s[i] == ' '
    ensures Scan(s, i, m) == Scan(s, i + 1, m)
  {
    NoKeywordAt(s, i);
    hide Keyword;
  }

  lemma NoKeywordAt(s: string, i: nat)
    requires i < |s| && s[i] in " ()"
    ensures !Keyword(s, i, "BETWEEN", false) && !Keyword(s, i, "IN", true) && !Keyword(s, i, "NOT IN", true)
    ensures !Keyword(s, i, "AND", true) && !Keyword(s, i, "OR", true)
  {
    hide Keyword;
    OtherFirstLetter(s, i, "BETWEEN", false);
    OtherFirstLetter(s, i, "IN", true);
    OtherFirstLetter(s, i, "NOT IN", true);
    OtherFirstLetter(s, i, "AND", true);
    OtherFirstLetter(s, i, "OR", true);
  }

  // ----- Keywords -----

  /** The letter of a keyword, as in it or in lower case. */
  predicate InAnyCase(c: char, k: char) {
    c == k || ('A' <= k <= 'Z' && c == k - 'A' + 'a')
  }

  /** The word is the keyword, each letter in upper or lower case. */
  predicate Spells(w: string, k: string) {
    |w| == |k| && forall j :: 0 <= j < |k| ==> InAnyCase(w[j], k[j])
  }

  /** The keyword stands in `s` at `i`, each letter in upper or lower case. */
  predicate Spelled(s: string, i: nat, k: string) {
    i + |k| <= |s| && forall j :: 0 <= j < |k| ==> InAnyCase(s[i + j], k[j])
  }

  lemma ReadIsSpelled(s: string, i: nat, w: string, k: string)
    requires Reads(s, i, w) && Spells(w, k)
    ensures Spelled(s, i, k) && |w| == |k|
  {
    forall j | 0 <= j < |k| ensures InAnyCase(s[i + j], k[j]) {
      assert s[i + j] == w[j];
    }
  }

  lemma SpellsItself(k: string)
    ensures Spells(k, k)
  {}

  /** A keyword in capitals, as the lexer compares it. */
  predicate InCapitals(k: string) {
    forall j :: 0 <= j < |k| ==> 'A' <= k[j] <= 'Z' || k[j] == ' '
  }

  /** Case is ignored: a keyword is read exactly where its letters stand in upper or lower case (or the dotless i,
      whose upper case is that of i), behind the beginning, a blank, a tab or a closing parenthesis, and in front
      of the end, a blank, a tab, or, but for BETWEEN, an opening parenthesis. */
  lemma KeywordInAnyCase(s: string, i: nat, k: string, paren: bool)
    requires InCapitals(k)
    ensures Keyword(s, i, k, paren) <==>
      && i + |k| <= |s|
      && (forall j :: 0 <= j < |k| ==> InAnyCase(s[i + j], k[j]) || (k[j] == 'I' && s[i + j] == '\U{0131}'))
      && (i == 0 || s[i - 1] in " \t)")
      && (i + |k| == |s| || s[i + |k|] in " \t" || (paren && s[i + |k|] == '('))
  {
    if i + |k| <= |s| {
      forall j | 0 <= j < |k|
        ensures Upper(s[i + j]) == k[j] <==>
          InAnyCase(s[i + j], k[j]) || (k[j] == 'I' && s[i + j] == '\U{0131}')
      {
        UpperIs(s[i + j], k[j]);
      }
    }
  }

  lemma UpperIs(c: char, k: char)
    requires 'A' <= k <= 'Z' || k == ' '
    ensures Upper(c) == k <==> InAnyCase(c, k) || (k == 'I' && c == '\U{0131}')
  {}

  lemma KeywordRead(s: string, i: nat, k: string, paren: bool)
    requires Spelled(s, i, k) && 0 < i && s[i - 1] == ' ' && InCapitals(k)
    requires i + |k| < |s| && s[i + |k|] == ' '
    ensures Keyword(s, i, k, paren)
  {
    KeywordInAnyCase(s, i, k, paren);
    hide Keyword, InAnyCase;
  }

  /** At most one keyword stands at a position, as far as their first letters tell. */
  lemma OneKeyword(s: string, i: nat, k: string, paren: bool, other: string, paren': bool)
    requires Keyword(s, i, k, paren) && k != "" && other != "" && k[0] != other[0]
    ensures !Keyword(s, i, other, paren')
  {
    assert Upper(s[i + 0]) == k[0];
    OtherFirstLetter(s, i, other, paren');
  }

  lemma ScanBetween(s: string, i: nat, m: Mode)
    requires Spelled(s, i, "BETWEEN") && 0 < i && s[i - 1] == ' ' && i + 7 < |s| && s[i + 7] == ' '
    ensures Scan(s, i, m) == Scan(s, i + 7, m.(inBetween := true))
  {
    KeywordRead(s, i, "BETWEEN", false);
    hide Keyword;
  }

  lemma ScanIn(s: string, i: nat, m: Mode)
    requires Spelled(s, i, "IN") && 0 < i && s[i - 1] == ' ' && i + 2 < |s| && s[i + 2] == ' '
    ensures Scan(s, i, m) == Scan(s, i + 2, m.(inIn := true))
  {
    KeywordRead(s, i, "IN", true);
    OneKeyword(s, i, "IN", true, "BETWEEN", false);
    hide Keyword;
  }

  lemma ScanNotIn(s: string, i: nat, m: Mode)
    requires Spelled(s, i, "NOT IN") && 0 < i && s[i - 1] == ' ' && i + 6 < |s| && s[i + 6] == ' '
    ensures Scan(s, i, m) == Scan(s, i + 6, m.(inIn := true))
  {
    KeywordRead(s, i, "NOT IN", true);
    OneKeyword(s, i, "NOT IN", true, "BETWEEN", false);
    OneKeyword(s, i, "NOT IN", true, "IN", true);
    hide Keyword;
  }

  /** The AND of a BETWEEN is passed over; any other AND, and an OR, ends the expression. */
  lemma ScanAnd(s: string, i: nat, m: Mode)
    requires Spelled(s, i, "AND") && 0 < i && s[i - 1] == ' ' && i + 3 < |s| && s[i + 3] == ' '
    ensures m.inBetween ==> Scan(s, i, m) == Scan(s, i + 3, m.(inBetween := false))
    ensures !m.inBetween && !m.inIn ==> Scan(s, i, m) == i
  {
    KeywordRead(s, i, "AND", true);
    OneKeyword(s, i, "AND", true, "BETWEEN", false);
    OneKeyword(s, i, "AND", true, "IN", true);
    OneKeyword(s, i, "AND", true, "NOT IN", true);
    hide Keyword;
  }

  lemma ScanOr(s: string, i: nat, m: Mode)
    requires Spelled(s, i, "OR") && 0 < i && s[i - 1] == ' ' && i + 2 < |s| && s[i + 2] == ' '
    ensures !m.inIn ==> Scan(s, i, m) == i
  {
    KeywordRead(s, i, "OR", true);
    OneKeyword(s, i, "OR", true, "BETWEEN", false);
    OneKeyword(s, i, "OR", true, "IN", true);
    OneKeyword(s, i, "OR", true, "NOT IN", true);
    OneKeyword(s, i, "OR", true, "AND", true);
    hide Keyword;
  }

  lemma ScanOpen(s: string, i: nat, m: Mode)
    requires i < |s| && s[i] == '(' && m.inIn && !m.entered
    ensures Scan(s, i, m) == Scan(s, i + 1, m.(entered := true))
  {
    NoKeywordAt(s, i);
    hide Keyword;
  }

  lemma ScanClose(s: string, i: nat, m: Mode)
    requires i < |s| && s[i] == ')' && m.depth == 0
    ensures Scan(s, i, m) == if m.inIn then i + 1 else i
  {
    NoKeywordAt(s, i);
    hide Keyword;
  }
}
