/** When placeholder resolution ends. */
module PlaceholderTermination {
  import opened Text
  import opened PlaceholderScan
  import opened PlaceholderResolve
  import opened PlaceholderCycles

  /** No lone prefix character: every one starts a placeholder with a matching suffix, and the same holds
      inside every placeholder. With the delimiters of the source: braces balance and no '$' stands alone. */
  predicate Clean(h: Helper, s: string)
    decreases |s|, 1
  {
    h.prefix[0] !in s || CleanPlaceholder(h, s)
  }

  predicate CleanPlaceholder(h: Helper, s: string)
    decreases |s|, 0
  {
    match First(h, s)
    case NoSpan => false
    case Span(start, end) =>
      && h.prefix[0] !in s[..start]
      && Clean(h, s[start + |h.prefix|..end])
      && Clean(h, s[end + |h.suffix|..])
  }

  /** Texts and properties whose resolution is bound to end: defaults are off, or an unset placeholder is
      an error and every text is clean. */
  ghost predicate Tame(h: Helper, props: Properties, s: string) {
    || h.separator == ""
    || (!h.ignoreUnresolvable && Clean(h, s) && forall k :: k in props ==> Clean(h, props[k]))
  }

  // ----- More steps never change an outcome -----

  lemma {:induction false} ResolveMore(h: Helper, props: Properties, fuel: nat, more: nat, s: string, visited: set<string>)
    requires fuel <= more && Resolve(h, props, fuel, s, visited) != OutOfFuel
    ensures Resolve(h, props, more, s, visited) == Resolve(h, props, fuel, s, visited)
    decreases fuel, 0
  {
    hide First, ValueOf, Prepend;
    if First(h, s).Span? {
      var Span(start, end) := First(h, s);
      var placeholder, after := s[start + |h.prefix|..end], s[end + |h.suffix|..];
      if placeholder !in visited {
        var expansion := Expand(h, props, fuel - 1, placeholder, visited);
        ExpandMore(h, props, fuel - 1, more - 1, placeholder, visited);
        if expansion.Resolved? {
          PrependFails(s[..start] + expansion.text);
          ResolveMore(h, props, fuel - 1, more - 1, after, visited);
        }
      }
    }
  }

  lemma {:induction false} ExpandMore(h: Helper, props: Properties, fuel: nat, more: nat, placeholder: string, visited: set<string>)
    requires fuel <= more && Expand(h, props, fuel, placeholder, visited) != OutOfFuel
    ensures Expand(h, props, more, placeholder, visited) == Expand(h, props, fuel, placeholder, visited)
    decreases fuel, 1
  {
    hide First, ValueOf, Prepend;
    ResolveMore(h, props, fuel, more, placeholder, visited + {placeholder});
    var key := Resolve(h, props, fuel, placeholder, visited + {placeholder});
    if key.Resolved? && ValueOf(h, props, key.text) != "" {
      ResolveMore(h, props, fuel, more, ValueOf(h, props, key.text), visited + {placeholder});
    }
  }

  // ----- What is inserted is free of the prefix character -----

  lemma CleanPieces(h: Helper, s: string)
    requires Clean(h, s)
    ensures First(h, s).NoSpan? ==> h.prefix[0] !in s
    ensures First(h, s).Span? ==>
      var Span(start, end) := First(h, s);
      h.prefix[0] !in s[..start] && Clean(h, s[start + |h.prefix|..end]) && Clean(h, s[end + |h.suffix|..])
  {
    hide First;
  }

  /** Resolving clean texts against clean values leaves no prefix character behind. */
  lemma {:induction false} CleanTextsResolveClean(h: Helper, props: Properties, fuel: nat, s: string, visited: set<string>)
    requires !h.ignoreUnresolvable && Clean(h, s) && forall k :: k in props ==> Clean(h, props[k])
    requires Resolve(h, props, fuel, s, visited).Resolved?
    ensures h.prefix[0] !in Resolve(h, props, fuel, s, visited).text
    decreases fuel, 0
  {
    hide First, ValueOf, Expand, Resolve, Clean;
    FuelLeft(h, props, fuel, s, visited);
    ResolveStep(h, props, fuel, s, visited);
    CleanPieces(h, s);
    if First(h, s).Span? {
      var Span(start, end) := First(h, s);
      var placeholder, after := s[start + |h.prefix|..end], s[end + |h.suffix|..];
      CleanPlaceholdersExpandClean(h, props, fuel - 1, placeholder, visited);
      CleanTextsResolveClean(h, props, fuel - 1, after, visited);
    }
  }

  lemma {:induction false} CleanPlaceholdersExpandClean(h: Helper, props: Properties, fuel: nat, placeholder: string, visited: set<string>)
    requires !h.ignoreUnresolvable && Clean(h, placeholder) && forall k :: k in props ==> Clean(h, props[k])
    requires Expand(h, props, fuel, placeholder, visited).Resolved?
    ensures h.prefix[0] !in Expand(h, props, fuel, placeholder, visited).text
    decreases fuel, 1
  {
    hide First, ValueOf, Clean;
    var key := Resolve(h, props, fuel, placeholder, visited + {placeholder});
    CleanTextsResolveClean(h, props, fuel, placeholder, visited + {placeholder});
    var value := ValueOf(h, props, key.text);
    ValueIsStoredOrDefault(h, props, key.text);
    if !(exists k :: k in props && props[k] == value) {
      PlainTextIsClean(h, value);
    }
    CleanTextsResolveClean(h, props, fuel, value, visited + {placeholder});
  }

  lemma ValueIsStoredOrDefault(h: Helper, props: Properties, key: string)
    ensures var value := ValueOf(h, props, key);
      || value == ""
      || (exists k :: k in props && props[k] == value)
      || (h.separator != "" && forall c :: c in value ==> c in key)
  {
    var separator := Index(key, h.separator);
    hide Index;
  }

  lemma PlainTextIsClean(h: Helper, s: string)
    requires h.prefix[0] !in s
    ensures First(h, s) == NoSpan && Clean(h, s)
  {
    hide Close;
    assert forall i: nat :: At(s, i, h.prefix) ==> s[i] == h.prefix[0];
  }

  // ----- Every chain of placeholders ends -----

  /** Every slice of `s` is among `universe`. */
  ghost predicate Covers(universe: set<string>, s: string) {
    forall i, j :: 0 <= i <= j <= |s| ==> s[i..j] in universe
  }

  lemma SliceOfSlice(s: string, a: nat, b: nat, i: nat, j: nat)
    requires a <= b <= |s| && i <= j <= b - a
    ensures s[a..b][i..j] == s[a + i..a + j]
  {
    var t, u := s[a..b][i..j], s[a + i..a + j];
    assert |t| == |u| && forall k :: 0 <= k < |t| ==> t[k] == u[k];
  }

  lemma CoversSlice(universe: set<string>, s: string, a: nat, b: nat)
    requires Covers(universe, s) && a <= b <= |s|
    ensures Covers(universe, s[a..b])
  {
    forall i, j | 0 <= i <= j <= b - a ensures s[a..b][i..j] in universe {
      SliceOfSlice(s, a, b, i, j);
    }
  }

  /** The raw placeholders are slices of the text and of the values, and each one being expanded is
      marked, so fewer and fewer are left. */
  lemma {:induction false} ResolveEnds(h: Helper, props: Properties, s: string, visited: set<string>, universe: set<string>)
    returns (fuel: nat)
    requires Tame(h, props, s) && Covers(universe, s) && forall k :: k in props ==> Covers(universe, props[k])
    ensures Resolve(h, props, fuel, s, visited) != OutOfFuel
    decreases |universe - visited|, |s|, 0
  {
    hide First, Index, Close, At, ValueOf, Expand, Covers, Then, Clean;
    ResolveStep(h, props, 1, s, visited);
    if h.separator != "" {
      CleanPieces(h, s);
    }
    fuel := 1;
    if First(h, s).Span? {
      var Span(start, end) := First(h, s);
      var placeholder, after := s[start + |h.prefix|..end], s[end + |h.suffix|..];
      if placeholder !in visited {
        SpanBounds(h, s);
        CoversSlice(universe, s, start + |h.prefix|, end);
        CoversSlice(universe, s, end + |h.suffix|, |s|);
        CoversItself(universe, placeholder);
        assert s[end + |h.suffix|..|s|] == after;
        Shrinks(universe, visited, placeholder);
        var expanding := ExpandEnds(h, props, placeholder, visited, universe);
        var following := ResolveEnds(h, props, after, visited, universe);
        var enough := expanding + following;
        ExpandMore(h, props, expanding, enough, placeholder, visited);
        ResolveMore(h, props, following, enough, after, visited);
        fuel := enough + 1;
        ResolveStep(h, props, fuel, s, visited);
        ThenNeverRunsOut(Expand(h, props, enough, placeholder, visited), s[..start],
                         Resolve(h, props, enough, after, visited));
      }
    }
  }

  lemma {:induction false} ExpandEnds(h: Helper, props: Properties, placeholder: string, visited: set<string>, universe: set<string>)
    returns (fuel: nat)
    requires Tame(h, props, placeholder) && Covers(universe, placeholder)
    requires forall k :: k in props ==> Covers(universe, props[k])
    requires placeholder !in visited && placeholder in universe
    ensures Expand(h, props, fuel, placeholder, visited) != OutOfFuel
    decreases |universe - visited|, 0, 1
  {
    hide First, Index, Close, At, ValueOf, Resolve, Covers, Prepend, Clean;
    var marked := visited + {placeholder};
    Shrinks(universe, visited, placeholder);
    fuel := ResolveEnds(h, props, placeholder, marked, universe);
    var key := Resolve(h, props, fuel, placeholder, marked);
    if key.Resolved? {
      var value := ValueOf(h, props, key.text);
      ValueIsStoredOrDefault(h, props, key.text);
      if value != "" {
        var valuing := 1;
        if exists k :: k in props && props[k] == value {
          valuing := ResolveEnds(h, props, value, marked, universe);
        } else {
          CleanTextsResolveClean(h, props, fuel, placeholder, marked);
          PlainTextIsClean(h, value);
          ResolveStep(h, props, 1, value, marked);
        }
        var enough := fuel + valuing;
        ResolveMore(h, props, fuel, enough, placeholder, marked);
        ResolveMore(h, props, valuing, enough, value, marked);
        fuel := enough;
      }
    }
  }

  lemma SpanBounds(h: Helper, s: string)
    requires First(h, s).Span?
    ensures var Span(start, end) := First(h, s);
      start + |h.prefix| <= end && end + |h.suffix| <= |s|
  {
    hide First, At;
  }

  lemma CoversItself(universe: set<string>, s: string)
    requires Covers(universe, s)
    ensures s in universe
  {
    assert s[0..|s|] == s;
  }

  lemma Shrinks(universe: set<string>, visited: set<string>, placeholder: string)
    requires placeholder in universe && placeholder !in visited
    ensures |universe - (visited + {placeholder})| < |universe - visited|
  {
    assert universe - (visited + {placeholder}) == (universe - visited) - {placeholder};
  }

  lemma ThenNeverRunsOut(expansion: Outcome, before: string, rest: Outcome)
    requires expansion != OutOfFuel && rest != OutOfFuel
    ensures Then(expansion, before, rest) != OutOfFuel
  {}

  ghost function Slices(props: Properties, s: string): (universe: set<string>)
    ensures Covers(universe, s)
    ensures forall k :: k in props ==> Covers(universe, props[k])
  {
    (set i: nat, j: nat | i <= j <= |s| :: s[i..j])
    + (set k, i: nat, j: nat | k in props && i <= j <= |props[k]| :: props[k][i..j])
  }

  /** Resolution of tame texts ends, whatever refers to what. */
  lemma TameResolutionEnds(h: Helper, props: Properties, s: string) returns (fuel: nat)
    requires Tame(h, props, s)
    ensures Resolve(h, props, fuel, s, {}) != OutOfFuel
  {
    hide Resolve, Tame, Covers;
    fuel := ResolveEnds(h, props, s, {}, Slices(props, s));
  }
}
