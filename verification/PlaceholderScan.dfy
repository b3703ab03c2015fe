/** Placeholder syntax: where a placeholder starts and where its matching suffix is
    (`ag/ag_conf/property_placeholder_helper.go`). */
module PlaceholderScan {
  import opened Text

  /** The configuration of a `PropertyPlaceholderHelper`. */
  datatype HelperRaw = Helper(prefix: string, suffix: string, separator: string, ignoreUnresolvable: bool)

  /** With an empty prefix the scan of the source never advances, so the delimiters are never empty. */
  type Helper = h: HelperRaw | h.prefix != "" && h.suffix != ""
    witness Helper("${", "}", ":", false)

  /** The position of the suffix closing a group whose content starts at `i`, by recursive descent. */
  function Close(h: Helper, s: string, i: nat): (r: int)
    ensures r == -1 || (i <= r && At(s, r, h.suffix))
    decreases |s| - i
  {
    if i >= |s| then -1
    else if At(s, i, h.suffix) then i
    else if At(s, i, h.prefix) then
      var k := Close(h, s, i + |h.prefix|);
      if k == -1 then -1 else Close(h, s, k + |h.suffix|)
    else Close(h, s, i + 1)
  }

  /** How `Close` moves: it stops at the end or at a suffix, steps over a character, or over a group. */
  lemma CloseAtEnd(h: Helper, s: string, i: nat)
    requires i >= |s| || At(s, i, h.suffix)
    ensures Close(h, s, i) == if i >= |s| then -1 else i
  {
    hide At;
  }

  lemma CloseStep(h: Helper, s: string, i: nat)
    requires i < |s| && !At(s, i, h.suffix)
    ensures !At(s, i, h.prefix) ==> Close(h, s, i) == Close(h, s, i + 1)
    ensures At(s, i, h.prefix) ==>
      var k := Close(h, s, i + |h.prefix|);
      Close(h, s, i) == if k == -1 then -1 else Close(h, s, k + |h.suffix|)
  {
    hide At;
  }

  /** `Close` with `depth` further groups to close first. */
  ghost function CloseNested(h: Helper, s: string, i: nat, depth: nat): int
    decreases depth
  {
    var k := Close(h, s, i);
    if depth == 0 || k == -1 then k else CloseNested(h, s, k + |h.suffix|, depth - 1)
  }

  /** The counting scan of the source finds the suffix the recursive descent finds. */
  method FindPlaceholderEndIndex(h: Helper, buf: string, startIndex: nat) returns (r: int)
    ensures r == Close(h, buf, startIndex + |h.prefix|)
  {
    hide At, Close;
    var index := startIndex + |h.prefix|;
    var withinNestedPlaceholder := 0;
    while index < |buf|
      invariant 0 <= withinNestedPlaceholder
      invariant CloseNested(h, buf, index, withinNestedPlaceholder) == Close(h, buf, startIndex + |h.prefix|)
    {
      if At(buf, index, h.suffix) {
        CloseAtEnd(h, buf, index);
        if withinNestedPlaceholder > 0 {
          withinNestedPlaceholder := withinNestedPlaceholder - 1;
          index := index + |h.suffix|;
        } else {
          return index;
        }
      } else if At(buf, index, h.prefix) {
        CloseStep(h, buf, index);
        withinNestedPlaceholder := withinNestedPlaceholder + 1;
        index := index + |h.prefix|;
      } else {
        CloseStep(h, buf, index);
        index := index + 1;
      }
    }
    CloseAtEnd(h, buf, index);
    return -1;
  }

  // ----- The bracket grammar -----

  /** A bracketed text: characters and groups, each group a bracketed text between the delimiters. */
  datatype Bracketed = End | Char(rest: Bracketed) | Group(inner: Bracketed, rest: Bracketed)

  ghost function Width(h: Helper, t: Bracketed): nat {
    match t
    case End => 0
    case Char(rest) => 1 + Width(h, rest)
    case Group(inner, rest) => |h.prefix| + Width(h, inner) + |h.suffix| + Width(h, rest)
  }

  /** `t` is the bracket structure of the text of `s` starting at `i`. */
  ghost predicate Spells(h: Helper, t: Bracketed, s: string, i: nat) {
    match t
    case End => true
    case Char(rest) =>
      i < |s| && !At(s, i, h.suffix) && !At(s, i, h.prefix) && Spells(h, rest, s, i + 1)
    case Group(inner, rest) =>
      var k := i + |h.prefix| + Width(h, inner);
      && !At(s, i, h.suffix) && At(s, i, h.prefix)
      && Spells(h, inner, s, i + |h.prefix|)
      && At(s, k, h.suffix)
      && Spells(h, rest, s, k + |h.suffix|)
  }

  /** `j` closes the group whose content starts at `i`: the text between them is bracketed. */
  ghost predicate Matches(h: Helper, s: string, i: nat, j: nat) {
    At(s, j, h.suffix) && exists t :: Spells(h, t, s, i) && i + Width(h, t) == j
  }

  lemma {:induction false} SpelledTextCloses(h: Helper, t: Bracketed, s: string, i: nat)
    requires Spells(h, t, s, i) && At(s, i + Width(h, t), h.suffix)
    ensures Close(h, s, i) == i + Width(h, t)
  {
    hide At;
    match t
    case End =>
    case Char(rest) => SpelledTextCloses(h, rest, s, i + 1);
    case Group(inner, rest) =>
      SpelledTextCloses(h, inner, s, i + |h.prefix|);
      SpelledTextCloses(h, rest, s, i + |h.prefix| + Width(h, inner) + |h.suffix|);
  }

  lemma {:induction false} ClosedTextIsSpelled(h: Helper, s: string, i: nat) returns (t: Bracketed)
    requires Close(h, s, i) != -1
    ensures Spells(h, t, s, i) && i + Width(h, t) == Close(h, s, i)
    decreases |s| - i
  {
    hide At;
    if At(s, i, h.suffix) {
      t := End;
    } else if At(s, i, h.prefix) {
      var inner := ClosedTextIsSpelled(h, s, i + |h.prefix|);
      var rest := ClosedTextIsSpelled(h, s, Close(h, s, i + |h.prefix|) + |h.suffix|);
      t := Group(inner, rest);
    } else {
      var rest := ClosedTextIsSpelled(h, s, i + 1);
      t := Char(rest);
    }
  }

  /** The scan agrees with the grammar in both directions: it returns a position exactly when that
      position is the matching suffix, and -1 exactly when no suffix matches. */
  lemma FindsTheMatchingSuffix(h: Helper, s: string, i: nat, j: nat)
    ensures Close(h, s, i) == j <==> Matches(h, s, i, j)
    ensures Close(h, s, i) == -1 <==> forall k: nat :: !Matches(h, s, i, k)
  {
    hide At;
    forall k: nat ensures Close(h, s, i) == k <==> Matches(h, s, i, k) {
      if Close(h, s, i) == k {
        var t := ClosedTextIsSpelled(h, s, i);
      } else if Matches(h, s, i, k) {
        var t :| Spells(h, t, s, i) && i + Width(h, t) == k;
        SpelledTextCloses(h, t, s, i);
      }
    }
    if Close(h, s, i) != -1 {
      assert Matches(h, s, i, Close(h, s, i));
    }
  }

  // ----- The first placeholder of a text -----

  /** The positions of a placeholder's prefix and of its matching suffix. */
  datatype Span = NoSpan | Span(start: nat, end: nat)

  /** The first placeholder of `s`. A text whose first prefix is unclosed has none, even if a later placeholder is closed. */
  function First(h: Helper, s: string): (r: Span)
    ensures r.Span? ==> At(s, r.start, h.prefix) && r.start + |h.prefix| <= r.end
    ensures r.Span? ==> At(s, r.end, h.suffix)
  {
    var start := Index(s, h.prefix);
    if start == -1 then NoSpan
    else
      var end := Close(h, s, start + |h.prefix|);
      if end == -1 then NoSpan else Span(start, end)
  }

  /** Text in front of the scanned part does not change what matches. */
  lemma {:induction false} ShiftClose(h: Helper, u: string, s: string, i: nat, t: string, n: nat, m: nat)
    requires t == u + s && n == |u| && m == n + i
    ensures Close(h, t, m) == (if Close(h, s, i) == -1 then -1 else n + Close(h, s, i))
    decreases |s| - i
  {
    hide *;
    ShiftAt(u, s, i, h.suffix);
    ShiftAt(u, s, i, h.prefix);
    if i >= |s| {
      CloseAtEnd(h, s, i);
      CloseAtEnd(h, t, m);
    } else if At(s, i, h.suffix) {
      CloseAtEnd(h, s, i);
      CloseAtEnd(h, t, m);
    } else {
      CloseStep(h, s, i);
      CloseStep(h, t, m);
      if At(s, i, h.prefix) {
        ShiftClose(h, u, s, i + |h.prefix|, t, n, m + |h.prefix|);
        var k := Close(h, s, i + |h.prefix|);
        if k != -1 {
          ShiftClose(h, u, s, k + |h.suffix|, t, n, n + k + |h.suffix|);
        }
      } else {
        ShiftClose(h, u, s, i + 1, t, n, m + 1);
      }
    }
  }
}
