/** Clean texts also end when unset placeholders are kept as they are written
    (`ag/ag_conf/property_placeholder_helper.go`). */
module PlaceholderLenient {
  import opened Text
  import opened PlaceholderScan
  import opened PlaceholderResolve
  import opened PlaceholderCycles
  import opened PlaceholderTermination

  /** The first character of the prefix, '$' in the source, stands nowhere else in the delimiters. */
  predicate Simple(h: Helper) {
    h.prefix[0] !in h.prefix[1..] && h.prefix[0] !in h.suffix
  }

  /** A clean text whose placeholders, at every depth, are among `universe`. */
  ghost predicate Tidy(h: Helper, universe: set<string>, s: string)
    decreases |s|
  {
    h.prefix[0] !in s ||
    match First(h, s)
    case NoSpan => false
    case Span(start, end) =>
      && h.prefix[0] !in s[..start]
      && s[start + |h.prefix|..end] in universe
      && Tidy(h, universe, s[start + |h.prefix|..end])
      && Tidy(h, universe, s[end + |h.suffix|..])
  }

  /** The parts of a text with a placeholder. */
  ghost predicate Splits(h: Helper, universe: set<string>, s: string, before: string, p: string, after: string) {
    && s == before + (h.prefix + (p + (h.suffix + after)))
    && First(h, s) == Span(|before|, |before| + |h.prefix| + |p|)
    && h.prefix[0] !in before && p in universe && Tidy(h, universe, p) && Tidy(h, universe, after)
    && |p| < |s| && |after| < |s|
  }

  lemma FiveParts(a: string, b: string, c: string, d: string, e: string)
    ensures var s := a + (b + (c + (d + e)));
      && s[..|a|] == a && s[|a|..|a| + |b|] == b && s[|a| + |b|..|a| + |b| + |c|] == c
      && s[|a| + |b| + |c|..|a| + |b| + |c| + |d|] == d && s[|a| + |b| + |c| + |d|..] == e
  {}

  lemma Rejoin(s: string, i: nat, j: nat, k: nat, l: nat, b: string, d: string)
    requires i <= j <= k <= l <= |s| && s[i..j] == b && s[k..l] == d
    ensures s == s[..i] + (b + (s[j..k] + (d + s[l..])))
    ensures |s[..i]| == i && |s[j..k]| == k - j && |s[l..]| == |s| - l
  {}

  lemma SpanShape(h: Helper, s: string, start: nat, end: nat)
    requires First(h, s) == Span(start, end)
    ensures start + |h.prefix| <= end && end + |h.suffix| <= |s|
    ensures s[start..start + |h.prefix|] == h.prefix && s[end..end + |h.suffix|] == h.suffix
  {
    hide First;
  }

  lemma FirstOfSlice(s: string, i: nat, w: string)
    requires w != "" && i + |w| <= |s| && s[i..i + |w|] == w
    ensures w[0] in s
  {
    assert s[i..i + |w|][0] == s[i];
  }

  lemma TidyMeans(h: Helper, universe: set<string>, s: string, start: nat, end: nat)
    requires First(h, s) == Span(start, end)
    ensures start + |h.prefix| <= end && end + |h.suffix| <= |s|
    ensures s[start..start + |h.prefix|] == h.prefix && s[end..end + |h.suffix|] == h.suffix
    ensures h.prefix[0] in s
    ensures Tidy(h, universe, s) <==>
      && h.prefix[0] !in s[..start]
      && s[start + |h.prefix|..end] in universe
      && Tidy(h, universe, s[start + |h.prefix|..end])
      && Tidy(h, universe, s[end + |h.suffix|..])
  {
    hide First, At;
    SpanShape(h, s, start, end);
    FirstOfSlice(s, start, h.prefix);
  }

  lemma TidyHasFirst(h: Helper, universe: set<string>, s: string)
    requires Tidy(h, universe, s) && h.prefix[0] in s
    ensures First(h, s).Span?
  {
    hide First;
  }

  lemma MakesSplit(h: Helper, universe: set<string>, s: string, start: nat, end: nat,
                   before: string, p: string, after: string)
    requires First(h, s) == Span(start, end) && start + |h.prefix| <= end && end + |h.suffix| <= |s|
    requires s[start..start + |h.prefix|] == h.prefix && s[end..end + |h.suffix|] == h.suffix
    requires before == s[..start] && p == s[start + |h.prefix|..end] && after == s[end + |h.suffix|..]
    requires h.prefix[0] !in before && p in universe && Tidy(h, universe, p) && Tidy(h, universe, after)
    ensures Splits(h, universe, s, before, p, after)
  {
    hide Tidy, First, At;
    Rejoin(s, start, start + |h.prefix|, end, end + |h.suffix|, h.prefix, h.suffix);
  }

  lemma TidySplits(h: Helper, universe: set<string>, s: string) returns (before: string, p: string, after: string)
    requires Tidy(h, universe, s) && h.prefix[0] in s
    ensures Splits(h, universe, s, before, p, after)
  {
    hide *;
    TidyHasFirst(h, universe, s);
    var Span(start, end) := First(h, s);
    TidyMeans(h, universe, s, start, end);
    before, p, after := s[..start], s[start + |h.prefix|..end], s[end + |h.suffix|..];
    MakesSplit(h, universe, s, start, end, before, p, after);
  }

  lemma SplitIsTidy(h: Helper, universe: set<string>, s: string, before: string, p: string, after: string)
    requires Splits(h, universe, s, before, p, after)
    ensures Tidy(h, universe, s)
  {
    hide Tidy, First, At;
    FiveParts(before, h.prefix, p, h.suffix, after);
    TidyMeans(h, universe, s, |before|, |before| + |h.prefix| + |p|);
  }

  lemma PlainIsTidy(h: Helper, universe: set<string>, s: string)
    requires h.prefix[0] !in s
    ensures Tidy(h, universe, s)
  {}

  /** Every first character of a prefix begins one. */
  ghost predicate Prefixed(h: Helper, s: string) {
    forall i :: 0 <= i < |s| && s[i] == h.prefix[0] ==> At(s, i, h.prefix)
  }

  lemma PrefixedJoin(h: Helper, a: string, b: string)
    requires Prefixed(h, a) && Prefixed(h, b)
    ensures Prefixed(h, a + b)
  {
    var s := a + b;
    forall i | 0 <= i < |s| && s[i] == h.prefix[0] ensures At(s, i, h.prefix) {
      if i < |a| {
        assert At(a, i, h.prefix);
        assert s[i..i + |h.prefix|] == a[i..i + |h.prefix|];
      } else {
        assert At(b, i - |a|, h.prefix);
        ShiftAt(a, b, i - |a|, h.prefix);
      }
    }
  }

  lemma DelimitersArePrefixed(h: Helper)
    requires Simple(h)
    ensures Prefixed(h, h.prefix) && Prefixed(h, h.suffix)
  {
    assert forall i :: 0 < i < |h.prefix| ==> h.prefix[i] == h.prefix[1..][i - 1];
    assert h.prefix[0..|h.prefix|] == h.prefix;
  }

  lemma {:induction false} TidyIsPrefixed(h: Helper, universe: set<string>, s: string)
    requires Simple(h) && Tidy(h, universe, s)
    ensures Prefixed(h, s)
    decreases |s|
  {
    if h.prefix[0] in s {
      var before, p, after := TidySplits(h, universe, s);
      TidyIsPrefixed(h, universe, p);
      TidyIsPrefixed(h, universe, after);
      DelimitersArePrefixed(h);
      hide Tidy, First, Prefixed;
      assert Prefixed(h, before) by { NothingToPrefix(h, before); }
      PrefixedJoin(h, h.suffix, after);
      PrefixedJoin(h, p, h.suffix + after);
      PrefixedJoin(h, h.prefix, p + (h.suffix + after));
      PrefixedJoin(h, before, h.prefix + (p + (h.suffix + after)));
    } else {
      NothingToPrefix(h, s);
    }
  }

  lemma NothingToPrefix(h: Helper, s: string)
    requires h.prefix[0] !in s
    ensures Prefixed(h, s)
  {}

  // ----- What follows does not change what is closed -----

  lemma AtLonger(a: string, b: string, i: nat, w: string)
    ensures At(a, i, w) ==> At(a + b, i, w)
    ensures i + |w| <= |a| ==> At(a + b, i, w) == At(a, i, w)
  {
    if i + |w| <= |a| {
      assert (a + b)[i..i + |w|] == a[i..i + |w|];
    }
  }

  lemma {:induction false} CloseStays(h: Helper, a: string, b: string, i: nat)
    requires Prefixed(h, a) && Close(h, a, i) != -1
    ensures Close(h, a + b, i) == Close(h, a, i)
    decreases |a| - i
  {
    hide At, Close, Prefixed;
    var k := Close(h, a, i);
    AtLonger(a, b, i, h.suffix);
    if i >= |a| || At(a, i, h.suffix) {
      CloseAtEnd(h, a, i);
      CloseAtEnd(h, a + b, i);
    } else {
      CloseStep(h, a, i);
      AtPrefix(h, a, b, i);
      CloseStep(h, a + b, i);
      if At(a, i, h.prefix) {
        CloseStays(h, a, b, i + |h.prefix|);
        CloseStays(h, a, b, Close(h, a, i + |h.prefix|) + |h.suffix|);
      } else {
        CloseStays(h, a, b, i + 1);
      }
    }
  }

  lemma AtPrefix(h: Helper, a: string, b: string, i: nat)
    requires Prefixed(h, a) && i < |a|
    ensures At(a + b, i, h.prefix) == At(a, i, h.prefix)
  {
    AtLonger(a, b, i, h.prefix);
    if At(a + b, i, h.prefix) {
      assert (a + b)[i] == (a + b)[i..i + |h.prefix|][0];
    }
  }

  lemma {:induction false} CloseShorter(h: Helper, a: string, b: string, i: nat)
    requires Close(h, a + b, i) != -1 && Close(h, a + b, i) + |h.suffix| <= |a|
    ensures Close(h, a, i) == Close(h, a + b, i)
    decreases |a| - i
  {
    hide At, Close;
    AtLonger(a, b, i, h.suffix);
    AtLonger(a, b, i, h.prefix);
    if At(a + b, i, h.suffix) {
      CloseAtEnd(h, a + b, i);
      CloseAtEnd(h, a, i);
    } else {
      CloseStep(h, a + b, i);
      CloseStep(h, a, i);
      if At(a + b, i, h.prefix) {
        CloseShorter(h, a, b, i + |h.prefix|);
        CloseShorter(h, a, b, Close(h, a + b, i + |h.prefix|) + |h.suffix|);
      } else {
        CloseShorter(h, a, b, i + 1);
      }
    }
  }

  /** The first placeholder of a text stays the first when something follows. */
  lemma FirstStays(h: Helper, a: string, b: string)
    requires Prefixed(h, a) && First(h, a).Span?
    ensures First(h, a + b) == First(h, a)
  {
    hide At, Close, Prefixed;
    var start := Index(a, h.prefix);
    CloseStays(h, a, b, start + |h.prefix|);
    AtLonger(a, b, start, h.prefix);
    forall j: nat | j < start ensures !At(a + b, j, h.prefix) {
      AtPrefix(h, a, b, j);
    }
    IndexIsFirst(a + b, h.prefix, start);
  }

  /** And when text without the first character of a prefix stands before it, it moves with the text. */
  lemma FirstMoves(h: Helper, a: string, b: string)
    requires h.prefix[0] !in a && First(h, b).Span?
    ensures First(h, a + b) == Span(|a| + First(h, b).start, |a| + First(h, b).end)
  {
    hide At, Close;
    var start := Index(b, h.prefix);
    ShiftAt(a, b, start, h.prefix);
    forall j: nat | j < |a| + start ensures !At(a + b, j, h.prefix) {
      if j < |a| {
        NoPrefixAt(h, a, b, j);
      } else {
        ShiftAt(a, b, j - |a|, h.prefix);
      }
    }
    IndexIsFirst(a + b, h.prefix, |a| + start);
    ShiftClose(h, a, b, start + |h.prefix|, a + b, |a|, |a| + start + |h.prefix|);
  }

  lemma NoPrefixAt(h: Helper, a: string, b: string, j: nat)
    requires h.prefix[0] !in a && j < |a|
    ensures !At(a + b, j, h.prefix)
  {
    hide At;
    assert (a + b)[j] == a[j] != h.prefix[0];
    AtBegins(a + b, j, h.prefix);
  }

  // ----- Tidy texts put together and taken apart -----

  lemma Associates(a: string, b: string, c: string, d: string, e: string, f: string)
    ensures (a + (b + (c + (d + e)))) + f == a + (b + (c + (d + (e + f))))
    ensures f + (a + (b + (c + (d + e)))) == (f + a) + (b + (c + (d + e)))
  {}

  lemma JoinBehind(h: Helper, universe: set<string>, a: string, b: string, before: string, p: string, after: string)
    requires Prefixed(h, a) && Splits(h, universe, a, before, p, after) && Tidy(h, universe, after + b)
    ensures Splits(h, universe, a + b, before, p, after + b)
  {
    hide Tidy, First, Prefixed, At;
    FirstStays(h, a, b);
    Associates(before, h.prefix, p, h.suffix, after, b);
  }

  lemma JoinBefore(h: Helper, universe: set<string>, a: string, b: string, before: string, p: string, after: string)
    requires h.prefix[0] !in a && Splits(h, universe, b, before, p, after)
    ensures Splits(h, universe, a + b, a + before, p, after)
  {
    hide Tidy, First, At;
    FirstMoves(h, a, b);
    Associates(before, h.prefix, p, h.suffix, after, a);
  }

  lemma SplitsMeans(h: Helper, universe: set<string>, s: string, before: string, p: string, after: string)
    requires Splits(h, universe, s, before, p, after)
    ensures |p| < |s| && |after| < |s| && Tidy(h, universe, p) && Tidy(h, universe, after)
    ensures |s| == |before| + |h.prefix| + |p| + |h.suffix| + |after|
    ensures s == before + (h.prefix + (p + (h.suffix + after)))
  {
    hide Tidy, First;
  }

  lemma {:induction false} TidyJoin(h: Helper, universe: set<string>, a: string, b: string)
    requires Simple(h) && Tidy(h, universe, a) && Tidy(h, universe, b)
    ensures Tidy(h, universe, a + b)
    decreases |a|
  {
    hide *;
    if h.prefix[0] in a {
      var before, p, after := TidySplits(h, universe, a);
      SplitsMeans(h, universe, a, before, p, after);
      TidyIsPrefixed(h, universe, a);
      TidyJoin(h, universe, after, b);
      JoinBehind(h, universe, a, b, before, p, after);
      SplitIsTidy(h, universe, a + b, before, p, after + b);
    } else if h.prefix[0] in b {
      var before, p, after := TidySplits(h, universe, b);
      JoinBefore(h, universe, a, b, before, p, after);
      SplitIsTidy(h, universe, a + b, a + before, p, after);
    } else {
      PlainIsTidy(h, universe, a + b);
    }
  }

  /** From a place in a text with a placeholder on. */
  lemma {:induction false} TidyRest(h: Helper, universe: set<string>, s: string, n: nat)
    requires Simple(h) && Tidy(h, universe, s) && n <= |s|
    ensures Tidy(h, universe, s[n..])
    decreases |s|
  {
    hide *;
    if h.prefix[0] in s {
      var before, p, after := TidySplits(h, universe, s);
      SplitsMeans(h, universe, s, before, p, after);
      if n > |before| + |h.prefix| && n - |before| - |h.prefix| <= |p| {
        TidyRest(h, universe, p, n - |before| - |h.prefix|);
      }
      if n >= |before| + |h.prefix| + |p| + |h.suffix| {
        TidyRest(h, universe, after, n - |before| - |h.prefix| - |p| - |h.suffix|);
      }
      RestOfSplit(h, universe, s, before, p, after, n);
    } else {
      PlainIsTidy(h, universe, s[n..]);
    }
  }

  lemma RestOfParts(a: string, b: string, n: nat)
    requires n <= |a| + |b|
    ensures (a + b)[n..] == if n <= |a| then a[n..] + b else b[n - |a|..]
  {}

  lemma RestOfDelimiter(h: Helper, universe: set<string>, b: string, m: nat)
    requires Simple(h) && Tidy(h, universe, b)
    ensures 0 < m <= |h.prefix| ==> Tidy(h, universe, h.prefix[m..] + b)
    ensures m <= |h.suffix| ==> Tidy(h, universe, h.suffix[m..] + b)
  {
    hide Tidy;
    if 0 < m <= |h.prefix| {
      assert h.prefix[m..] == h.prefix[1..][m - 1..];
      PlainIsTidy(h, universe, h.prefix[m..]);
      TidyJoin(h, universe, h.prefix[m..], b);
    }
    if m <= |h.suffix| {
      PlainIsTidy(h, universe, h.suffix[m..]);
      TidyJoin(h, universe, h.suffix[m..], b);
    }
  }

  lemma RestOfSplit(h: Helper, universe: set<string>, s: string, before: string, p: string, after: string, n: nat)
    requires Simple(h) && Splits(h, universe, s, before, p, after) && n <= |s|
    requires n > |before| + |h.prefix| && n - |before| - |h.prefix| <= |p| ==>
      Tidy(h, universe, p[n - |before| - |h.prefix|..])
    requires n >= |before| + |h.prefix| + |p| + |h.suffix| ==>
      Tidy(h, universe, after[n - |before| - |h.prefix| - |p| - |h.suffix|..])
    ensures Tidy(h, universe, s[n..])
  {
    hide *;
    SplitsMeans(h, universe, s, before, p, after);
    RestOfParts(before, h.prefix + (p + (h.suffix + after)), n);
    if n <= |before| {
      PlainStays(h, universe, s, before, p, after, n);
      WithoutBefore(h, universe, s, before, p, after);
      TidyJoin(h, universe, before[n..], h.prefix + (p + (h.suffix + after)));
    } else {
      RestOfPlaceholder(h, universe, p, after, n - |before|);
    }
  }

  lemma PlainStays(h: Helper, universe: set<string>, s: string, before: string, p: string, after: string, n: nat)
    requires Splits(h, universe, s, before, p, after) && n <= |before|
    ensures Tidy(h, universe, before[n..])
  {
    hide First, At, Tidy;
    PlainIsTidy(h, universe, before[n..]);
  }

  lemma RestOfPlaceholder(h: Helper, universe: set<string>, p: string, after: string, m: nat)
    requires Simple(h) && Tidy(h, universe, p) && Tidy(h, universe, after)
    requires 0 < m <= |h.prefix| + |p| + |h.suffix| + |after|
    requires m > |h.prefix| && m - |h.prefix| <= |p| ==> Tidy(h, universe, p[m - |h.prefix|..])
    requires m >= |h.prefix| + |p| + |h.suffix| ==> Tidy(h, universe, after[m - |h.prefix| - |p| - |h.suffix|..])
    ensures Tidy(h, universe, (h.prefix + (p + (h.suffix + after)))[m..])
  {
    hide *;
    var tail := h.suffix + after;
    RestOfDelimiter(h, universe, after, 0);
    assert h.suffix[0..] == h.suffix;
    RestOfParts(h.prefix, p + tail, m);
    if m <= |h.prefix| {
      TidyJoin(h, universe, p, tail);
      RestOfDelimiter(h, universe, p + tail, m);
    } else {
      var k := m - |h.prefix|;
      RestOfParts(p, tail, k);
      if k <= |p| {
        TidyJoin(h, universe, p[k..], tail);
      } else {
        RestOfParts(h.suffix, after, k - |p|);
        RestOfDelimiter(h, universe, after, k - |p|);
      }
    }
  }

  lemma AtTheStart(w: string, rest: string)
    ensures At(w + rest, 0, w)
  {
    assert (w + rest)[0..|w|] == w;
  }

  /** Where a placeholder stands at the beginning, that is the first. */
  lemma FirstAtTheStart(h: Helper, rest: string, end: nat)
    requires At(rest, 0, h.prefix) && Close(h, rest, |h.prefix|) == end
    ensures First(h, rest) == Span(0, end)
  {
    hide Close, At;
    IndexIsFirst(rest, h.prefix, 0);
    hide Index;
  }

  lemma CloseOfFirst(h: Helper, s: string)
    requires First(h, s).Span?
    ensures Close(h, s, First(h, s).start + |h.prefix|) == First(h, s).end
  {
    hide Close, At;
  }

  lemma ClosedThere(h: Helper, universe: set<string>, s: string, before: string, p: string, after: string)
    requires Splits(h, universe, s, before, p, after)
    ensures Close(h, h.prefix + (p + (h.suffix + after)), |h.prefix|) == |h.prefix| + |p|
  {
    hide Close, At, First, Tidy;
    CloseOfFirst(h, s);
    ShiftClose(h, before, h.prefix + (p + (h.suffix + after)), |h.prefix|, s, |before|, |before| + |h.prefix|);
  }

  lemma NothingBefore(s: string)
    ensures "" + s == s
  {}

  /** A placeholder as it is written, and what follows. */
  lemma WithoutBefore(h: Helper, universe: set<string>, s: string, before: string, p: string, after: string)
    requires Splits(h, universe, s, before, p, after)
    ensures Tidy(h, universe, h.prefix + (p + (h.suffix + after)))
  {
    hide Tidy, At, Close, First;
    var rest := h.prefix + (p + (h.suffix + after));
    AtTheStart(h.prefix, p + (h.suffix + after));
    ClosedThere(h, universe, s, before, p, after);
    FirstAtTheStart(h, rest, |h.prefix| + |p|);
    NothingBefore(rest);
    SplitIsTidy(h, universe, rest, "", p, after);
  }

  lemma RawPlaceholder(a: string, p: string, b: string, after: string)
    ensures a + (p + (b + "")) == a + p + b && a + (p + (b + after)) == a + (p + (b + "")) + after
    ensures |a + (p + (b + ""))| == |a| + |p| + |b|
  {}

  /** A placeholder as it is written, on its own. */
  lemma PlaceholderIsTidy(h: Helper, universe: set<string>, s: string, before: string, p: string, after: string)
    requires Splits(h, universe, s, before, p, after)
    ensures Tidy(h, universe, h.prefix + p + h.suffix)
  {
    hide Tidy, At, Close, First;
    RawPlaceholder(h.prefix, p, h.suffix, after);
    var raw := h.prefix + (p + (h.suffix + ""));
    AtTheStart(h.prefix, p + (h.suffix + ""));
    ClosedThere(h, universe, s, before, p, after);
    CloseShorter(h, raw, after, |h.prefix|);
    FirstAtTheStart(h, raw, |h.prefix| + |p|);
    PlainIsTidy(h, universe, "");
    NothingBefore(raw);
    SplitIsTidy(h, universe, raw, "", p, "");
  }

  // ----- What resolution leaves behind is tidy -----

  ghost predicate TidyValues(h: Helper, universe: set<string>, props: Properties) {
    forall k :: k in props ==> Tidy(h, universe, props[k])
  }

  lemma ValueIsStoredOrSuffix(h: Helper, props: Properties, key: string)
    ensures var value := ValueOf(h, props, key);
      || value == ""
      || (exists k :: k in props && props[k] == value)
      || (exists n :: 0 <= n <= |key| && value == key[n..])
  {
    hide Index;
    var separator := Index(key, h.separator);
    if separator != -1 {
      assert separator + |h.separator| <= |key| by { IndexEnds(key, h.separator); }
    }
  }

  lemma IndexEnds(s: string, p: string)
    ensures Index(s, p) != -1 ==> Index(s, p) + |p| <= |s|
  {}

  lemma ValueIsTidy(h: Helper, universe: set<string>, props: Properties, key: string)
    requires Simple(h) && TidyValues(h, universe, props) && Tidy(h, universe, key)
    ensures Tidy(h, universe, ValueOf(h, props, key))
  {
    hide ValueOf, Tidy, Simple;
    var value := ValueOf(h, props, key);
    ValueIsStoredOrSuffix(h, props, key);
    PlainIsTidy(h, universe, "");
    if n :| 0 <= n <= |key| && value == key[n..] {
      TidyRest(h, universe, key, n);
    }
  }

  lemma StepOfSplit(h: Helper, universe: set<string>, props: Properties, fuel: nat, s: string, visited: set<string>,
                    before: string, p: string, after: string)
    requires Splits(h, universe, s, before, p, after) && fuel > 0
    ensures Resolve(h, props, fuel, s, visited) ==
      if p in visited then Circular(p)
      else Then(Expand(h, props, fuel - 1, p, visited), before, Resolve(h, props, fuel - 1, after, visited))
    ensures h.prefix[0] !in before && p in universe
  {
    hide Resolve, Expand, First, Tidy, Then;
    ResolveStep(h, props, fuel, s, visited);
    FiveParts(before, h.prefix, p, h.suffix, after);
  }

  lemma StepOfPlain(h: Helper, props: Properties, fuel: nat, s: string, visited: set<string>)
    requires h.prefix[0] !in s && fuel > 0
    ensures Resolve(h, props, fuel, s, visited) == Resolved(s)
  {
    hide Resolve, First, Clean;
    PlainTextIsClean(h, s);
    ResolveStep(h, props, fuel, s, visited);
  }

  lemma ThenIs(expansion: Outcome, before: string, rest: Outcome)
    ensures Then(expansion, before, rest).Resolved? ==>
      expansion.Resolved? && rest.Resolved? && Then(expansion, before, rest).text == before + expansion.text + rest.text
  {}

  /** Whether or not unset placeholders are kept as they are written. */
  lemma {:induction false} ResolvesTidy(h: Helper, universe: set<string>, props: Properties, fuel: nat, s: string, visited: set<string>)
    requires Simple(h) && Tidy(h, universe, s) && TidyValues(h, universe, props)
    requires Resolve(h, props, fuel, s, visited).Resolved?
    ensures Tidy(h, universe, Resolve(h, props, fuel, s, visited).text)
    decreases fuel, 0
  {
    hide *;
    FuelLeft(h, props, fuel, s, visited);
    if h.prefix[0] in s {
      var before, p, after := TidySplits(h, universe, s);
      SplitsMeans(h, universe, s, before, p, after);
      StepOfSplit(h, universe, props, fuel, s, visited, before, p, after);
      var expansion, rest := Expand(h, props, fuel - 1, p, visited), Resolve(h, props, fuel - 1, after, visited);
      ThenIs(expansion, before, rest);
      PlaceholderIsTidy(h, universe, s, before, p, after);
      ExpandsTidy(h, universe, props, fuel - 1, p, visited);
      ResolvesTidy(h, universe, props, fuel - 1, after, visited);
      PlainIsTidy(h, universe, before);
      TidyJoin(h, universe, before, expansion.text);
      TidyJoin(h, universe, before + expansion.text, rest.text);
    } else {
      StepOfPlain(h, props, fuel, s, visited);
    }
  }

  lemma {:induction false} ExpandsTidy(h: Helper, universe: set<string>, props: Properties, fuel: nat, p: string, visited: set<string>)
    requires Simple(h) && Tidy(h, universe, p) && Tidy(h, universe, h.prefix + p + h.suffix)
    requires TidyValues(h, universe, props) && Expand(h, props, fuel, p, visited).Resolved?
    ensures Tidy(h, universe, Expand(h, props, fuel, p, visited).text)
    decreases fuel, 1
  {
    hide Simple, Tidy, TidyValues, Resolve, ValueOf;
    var key := Resolve(h, props, fuel, p, visited + {p});
    ResolvesTidy(h, universe, props, fuel, p, visited + {p});
    ValueIsTidy(h, universe, props, key.text);
    if ValueOf(h, props, key.text) != "" {
      ResolvesTidy(h, universe, props, fuel, ValueOf(h, props, key.text), visited + {p});
    }
  }

  // ----- Every chain of placeholders ends -----

  lemma {:induction false} TidyEnds(h: Helper, universe: set<string>, props: Properties, s: string, visited: set<string>)
    returns (fuel: nat)
    requires Simple(h) && Tidy(h, universe, s) && TidyValues(h, universe, props)
    ensures Resolve(h, props, fuel, s, visited) != OutOfFuel
    decreases |universe - visited|, |s|, 0
  {
    hide *;
    if h.prefix[0] in s {
      var before, p, after := TidySplits(h, universe, s);
      SplitsMeans(h, universe, s, before, p, after);
      StepOfSplit(h, universe, props, 1, s, visited, before, p, after);
      fuel := 1;
      if p !in visited {
        Shrinks(universe, visited, p);
        var expanding := ExpandEndsTidily(h, universe, props, p, visited);
        var following := TidyEnds(h, universe, props, after, visited);
        var enough := expanding + following;
        ExpandMore(h, props, expanding, enough, p, visited);
        ResolveMore(h, props, following, enough, after, visited);
        fuel := enough + 1;
        StepOfSplit(h, universe, props, fuel, s, visited, before, p, after);
        ThenNeverRunsOut(Expand(h, props, enough, p, visited), before, Resolve(h, props, enough, after, visited));
      }
    } else {
      fuel := 1;
      StepOfPlain(h, props, fuel, s, visited);
    }
  }

  lemma {:induction false} ExpandEndsTidily(h: Helper, universe: set<string>, props: Properties, p: string, visited: set<string>)
    returns (fuel: nat)
    requires Simple(h) && Tidy(h, universe, p) && TidyValues(h, universe, props)
    requires p !in visited && p in universe
    ensures Expand(h, props, fuel, p, visited) != OutOfFuel
    decreases |universe - visited|, 0, 1
  {
    hide Simple, Tidy, TidyValues, Resolve, ValueOf;
    var marked := visited + {p};
    Shrinks(universe, visited, p);
    fuel := TidyEnds(h, universe, props, p, marked);
    var key := Resolve(h, props, fuel, p, marked);
    if key.Resolved? {
      ResolvesTidy(h, universe, props, fuel, p, marked);
      ValueIsTidy(h, universe, props, key.text);
      var value := ValueOf(h, props, key.text);
      if value != "" {
        var valuing := TidyEnds(h, universe, props, value, marked);
        var enough := fuel + valuing;
        ResolveMore(h, props, fuel, enough, p, marked);
        ResolveMore(h, props, valuing, enough, value, marked);
        fuel := enough;
      }
    }
  }

  lemma {:induction false} CleanIsTidy(h: Helper, universe: set<string>, s: string)
    requires Clean(h, s) && Covers(universe, s)
    ensures Tidy(h, universe, s)
    decreases |s|
  {
    hide First, Covers, At;
    if h.prefix[0] in s {
      CleanPieces(h, s);
      SpanBounds(h, s);
      var Span(start, end) := First(h, s);
      CoversSlice(universe, s, start + |h.prefix|, end);
      CoversSlice(universe, s, end + |h.suffix|, |s|);
      CoversItself(universe, s[start + |h.prefix|..end]);
      assert s[end + |h.suffix|..|s|] == s[end + |h.suffix|..];
      CleanIsTidy(h, universe, s[start + |h.prefix|..end]);
      CleanIsTidy(h, universe, s[end + |h.suffix|..]);
    }
  }

  /** Resolution of clean texts against clean values ends, whatever refers to what, also when unset
      placeholders are kept as they are written. */
  lemma CleanResolutionEnds(h: Helper, props: Properties, s: string) returns (fuel: nat)
    requires Simple(h) && Clean(h, s) && forall k :: k in props ==> Clean(h, props[k])
    ensures Resolve(h, props, fuel, s, {}) != OutOfFuel
  {
    hide Resolve, Tidy, Clean, Covers, Simple;
    var universe := Slices(props, s);
    CleanIsTidy(h, universe, s);
    forall k | k in props ensures Tidy(h, universe, props[k]) {
      CleanIsTidy(h, universe, props[k]);
    }
    fuel := TidyEnds(h, universe, props, s, {});
  }

  // ----- The entry point -----

  /** A condition under which resolution is bound to end. It is not a necessary one. */
  ghost predicate Ending(h: Helper, props: Properties, s: string) {
    || Tame(h, props, s)
    || (Simple(h) && Clean(h, s) && forall k :: k in props ==> Clean(h, props[k]))
  }

  lemma ResolutionEnds(h: Helper, props: Properties, s: string) returns (fuel: nat)
    requires Ending(h, props, s)
    ensures Resolve(h, props, fuel, s, {}) != OutOfFuel
  {
    hide Resolve, Tame, Simple, Clean;
    if Tame(h, props, s) {
      fuel := TameResolutionEnds(h, props, s);
    } else {
      fuel := CleanResolutionEnds(h, props, s);
    }
  }

  lemma EmptyText(h: Helper, props: Properties, fuel: nat)
    requires Resolve(h, props, fuel, "", {}) != OutOfFuel
    ensures Resolve(h, props, fuel, "", {}) == Resolved("")
  {}

  /** Resolution with no bound on its steps: it ends, a circular reference is reported exactly when
      resolution without the visited map would never end, and any other outcome is the one that
      resolution has. */
  method ReplacePlaceholders(h: Helper, props: Properties, value: string) returns (r: Outcome)
    requires Ending(h, props, value)
    ensures r != OutOfFuel && exists fuel: nat :: Resolve(h, props, fuel, value, {}) == r
    ensures r.Circular? <==> Diverges(h, props, value)
    ensures !r.Circular? ==> exists fuel: nat :: Evaluate(h, props, fuel, value) == r
  {
    hide Resolve, Evaluate, Ending;
    ghost var fuel := ResolutionEnds(h, props, value);
    CycleDetectionIsExact(h, props, fuel, value);
    if value == "" {
      EmptyText(h, props, fuel);
      return Resolved("");
    }
    var visited := new Visited();
    r := ParseStringValueWithVisited(h, props, value, visited, fuel);
  }
}
