/** Placeholder resolution with nesting, dynamic keys, defaults and cycle detection
    (`ag/ag_conf/property_placeholder_helper.go`). */
module PlaceholderResolve {
  import opened Text
  import opened PlaceholderScan

  type Properties = map<string, string>

  /** What resolving a text yields. `OutOfFuel` stands for a computation that did not end within the
      given number of steps; every other outcome is what the source returns. */
  datatype Outcome = Resolved(text: string) | Circular(placeholder: string) | Unresolvable(key: string) | OutOfFuel

  /** The property resolver: an absent property reads as the empty string. */
  function Lookup(props: Properties, key: string): string {
    if key in props then props[key] else ""
  }

  /** The value of a key, falling back to the text behind the separator. */
  function ValueOf(h: Helper, props: Properties, key: string): string {
    var value := Lookup(props, key);
    var separator := Index(key, h.separator);
    if value != "" || h.separator == "" || separator == -1 then value
    else
      var actual := Lookup(props, key[..separator]);
      if actual != "" then actual else key[separator + |h.separator|..]
  }

  // ----- The resolver, segment by segment -----

  /** Resolves `s`: the text in front of the first placeholder is kept, the placeholder is replaced by
      its expansion, and what follows is resolved on its own, so inserted text is never rescanned.
      `visited` are the raw placeholders being expanded. */
  ghost function Resolve(h: Helper, props: Properties, fuel: nat, s: string, visited: set<string>): Outcome
    decreases fuel, 0
  {
    if fuel == 0 then OutOfFuel else ResolveFirst(h, props, fuel - 1, s, visited)
  }

  /** One placeholder, and the text behind it. */
  ghost function ResolveFirst(h: Helper, props: Properties, fuel: nat, s: string, visited: set<string>): Outcome
    decreases fuel, 2
  {
    match First(h, s)
    case NoSpan => Resolved(s)
    case Span(start, end) =>
      var placeholder := s[start + |h.prefix|..end];
      if placeholder in visited then Circular(placeholder)
      else Then(Expand(h, props, fuel, placeholder, visited), s[..start],
                Resolve(h, props, fuel, s[end + |h.suffix|..], visited))
  }

  /** Expands one raw placeholder: resolve it to a key, look the key up, resolve the value. */
  ghost function Expand(h: Helper, props: Properties, fuel: nat, placeholder: string, visited: set<string>): Outcome
    decreases fuel, 1
  {
    var key := Resolve(h, props, fuel, placeholder, visited + {placeholder});
    if !key.Resolved? then key
    else
      var value := ValueOf(h, props, key.text);
      if value != "" then Resolve(h, props, fuel, value, visited + {placeholder})
      else Unset(h, placeholder, key.text)
  }

  /** A placeholder without a value is kept as written or is an error. */
  function Unset(h: Helper, placeholder: string, key: string): Outcome {
    if h.ignoreUnresolvable then Resolved(h.prefix + placeholder + h.suffix) else Unresolvable(key)
  }

  function Prepend(before: string, rest: Outcome): Outcome {
    if rest.Resolved? then Resolved(before + rest.text) else rest
  }

  /** `before`, then the expansion, then the rest; the first failure wins. */
  function Then(expansion: Outcome, before: string, rest: Outcome): Outcome {
    if expansion.Resolved? then Prepend(before + expansion.text, rest) else expansion
  }

  lemma PrependNothing(o: Outcome)
    ensures Prepend("", o) == o
  {
    if o.Resolved? {
      assert "" + o.text == o.text;
    }
  }

  lemma PrependTwice(a: string, b: string, rest: Outcome)
    ensures Prepend(a, Prepend(b, rest)) == Prepend(a + b, rest)
  {
    if rest.Resolved? {
      assert a + (b + rest.text) == (a + b) + rest.text;
    }
  }

  lemma FuelLeft(h: Helper, props: Properties, fuel: nat, s: string, visited: set<string>)
    requires Resolve(h, props, fuel, s, visited) != OutOfFuel
    ensures fuel > 0
  {}

  lemma ResolveStep(h: Helper, props: Properties, fuel: nat, s: string, visited: set<string>)
    requires fuel > 0
    ensures First(h, s).NoSpan? ==> Resolve(h, props, fuel, s, visited) == Resolved(s)
    ensures First(h, s).Span? ==>
      var Span(start, end) := First(h, s);
      var placeholder := s[start + |h.prefix|..end];
      && |placeholder| < |s| && |s[end + |h.suffix|..]| < |s|
      && Resolve(h, props, fuel, s, visited) ==
         if placeholder in visited then Circular(placeholder)
         else Then(Expand(h, props, fuel - 1, placeholder, visited), s[..start],
                   Resolve(h, props, fuel - 1, s[end + |h.suffix|..], visited))
  {
    hide At, First;
  }

  // ----- The rewriting loop of the source -----

  /** The map of visited placeholders, shared by the recursive calls. */
  class Visited {
    var marks: set<string>

    constructor ()
      ensures marks == {}
    {
      marks := {};
    }
  }

  /** The loop of the source at the start of a round: `builder` is the finished part `done` followed by
      `rest`, whose resolution with `left` steps completes the result. */
  ghost predicate AtRound(h: Helper, props: Properties, marks: set<string>, result: Outcome,
                          builder: string, startIndex: int, done: string, rest: string, left: nat)
  {
    && builder == done + rest
    && startIndex == (var i := Index(rest, h.prefix); if i == -1 then -1 else |done| + i)
    && Resolve(h, props, left, rest, marks) != OutOfFuel
    && result == Prepend(done, Resolve(h, props, left, rest, marks))
  }

  lemma FirstRound(h: Helper, props: Properties, marks: set<string>, fuel: nat, value: string)
    requires Resolve(h, props, fuel, value, marks) != OutOfFuel
    ensures AtRound(h, props, marks, Resolve(h, props, fuel, value, marks), value, Index(value, h.prefix), "", value, fuel)
  {
    hide Resolve, Index;
    PrependNothing(Resolve(h, props, fuel, value, marks));
    assert value == "" + value;
  }

  lemma LastRound(h: Helper, props: Properties, marks: set<string>, result: Outcome,
                  builder: string, startIndex: int, done: string, rest: string, left: nat)
    requires AtRound(h, props, marks, result, builder, startIndex, done, rest, left)
    requires startIndex == -1 || Close(h, builder, startIndex + |h.prefix|) == -1
    ensures result == Resolved(builder)
  {
    hide At, Index, Close, Expand;
    FuelLeft(h, props, left, rest, marks);
    if startIndex != -1 {
      ShiftClose(h, done, rest, startIndex - |done| + |h.prefix|, builder, |done|, startIndex + |h.prefix|);
    }
  }

  /** The placeholder a round finds in the builder is the first one of the unresolved part. */
  lemma FoundInRest(h: Helper, builder: string, startIndex: nat, done: string, rest: string)
    requires builder == done + rest && Index(rest, h.prefix) != -1
    requires startIndex == |done| + Index(rest, h.prefix)
    requires Close(h, builder, startIndex + |h.prefix|) != -1
    ensures First(h, rest).Span?
    ensures var Span(start, end) := First(h, rest);
      && |done| + start == startIndex && |done| + end == Close(h, builder, startIndex + |h.prefix|)
      && builder[startIndex + |h.prefix|..|done| + end] == rest[start + |h.prefix|..end]
  {
    hide At, Index, Close;
    ShiftClose(h, done, rest, startIndex - |done| + |h.prefix|, builder, |done|, startIndex + |h.prefix|);
    var Span(start, end) := First(h, rest);
    BuilderSlices(builder, done, rest, start + |h.prefix|, end, "");
  }

  lemma RoundStarts(h: Helper, props: Properties, marks: set<string>, result: Outcome,
                    builder: string, startIndex: nat, done: string, rest: string, left: nat,
                    endIndex: nat, placeholder: string)
    requires AtRound(h, props, marks, result, builder, startIndex, done, rest, left)
    requires endIndex == Close(h, builder, startIndex + |h.prefix|)
    requires placeholder == builder[startIndex + |h.prefix|..endIndex]
    ensures left > 0
    ensures if placeholder in marks then result == Circular(placeholder)
      else
        var expansion := Expand(h, props, left - 1, placeholder, marks);
        expansion != OutOfFuel && (!expansion.Resolved? ==> result == expansion)
  {
    hide At, Index, Close, Resolve, Expand;
    FoundInRest(h, builder, startIndex, done, rest);
    FuelLeft(h, props, left, rest, marks);
    ResolveStep(h, props, left, rest, marks);
  }

  lemma RoundEnds(h: Helper, props: Properties, marks: set<string>, result: Outcome,
                  builder: string, startIndex: nat, done: string, rest: string, left: nat,
                  endIndex: nat, text: string, kept: bool, builder': string, searchPos: nat)
    returns (done': string, rest': string)
    requires left > 0 && AtRound(h, props, marks, result, builder, startIndex, done, rest, left)
    requires endIndex == Close(h, builder, startIndex + |h.prefix|)
    requires var placeholder := builder[startIndex + |h.prefix|..endIndex];
      && placeholder !in marks && Expand(h, props, left - 1, placeholder, marks) == Resolved(text)
      && (kept ==> text == h.prefix + placeholder + h.suffix)
    requires builder' == if kept then builder else builder[..startIndex] + text + builder[endIndex + |h.suffix|..]
    requires searchPos == if kept then endIndex + |h.suffix| else startIndex + |text|
    ensures searchPos <= |builder'|
    ensures var next := Index(builder'[searchPos..], h.prefix);
      AtRound(h, props, marks, result, builder', if next == -1 then -1 else searchPos + next, done', rest', left - 1)
  {
    hide At, Index, Close, Resolve, Expand;
    FoundInRest(h, builder, startIndex, done, rest);
    var Span(start, end) := First(h, rest);
    done', rest' := done + (rest[..start] + text), rest[end + |h.suffix|..];
    RoundDone(h, builder, done, rest, startIndex, endIndex, text, kept, builder', searchPos);
    ResolveStep(h, props, left, rest, marks);
    PrependTwice(done, rest[..start] + text, Resolve(h, props, left - 1, rest', marks));
  }

  /** The pieces of a text around its first placeholder. */
  lemma Pieces(h: Helper, s: string)
    requires First(h, s).Span?
    ensures var Span(start, end) := First(h, s);
      s == s[..start] + (h.prefix + s[start + |h.prefix|..end] + h.suffix) + s[end + |h.suffix|..]
  {
    hide Index, Close;
    var Span(start, end) := First(h, s);
    assert s[start..start + |h.prefix|] == h.prefix;
    assert s[end..end + |h.suffix|] == h.suffix;
    hide *;
  }

  /** A builder seen with the placeholder of its unresolved part as written. */
  lemma KeptBuilder(h: Helper, builder: string, done: string, rest: string)
    requires builder == done + rest && First(h, rest).Span?
    ensures var Span(start, end) := First(h, rest);
      builder == (done + (rest[..start] + (h.prefix + rest[start + |h.prefix|..end] + h.suffix)))
                 + rest[end + |h.suffix|..]
  {
    Pieces(h, rest);
    hide *;
  }

  /** Slices of a builder made of a finished part and the part still to be resolved. */
  lemma BuilderSlices(builder: string, done: string, rest: string, i: nat, j: nat, x: string)
    requires builder == done + rest && i <= j <= |rest|
    ensures builder[|done| + i..|done| + j] == rest[i..j]
    ensures builder[|done| + j..] == rest[j..]
    ensures builder[..|done| + i] + x + builder[|done| + j..] == (done + (rest[..i] + x)) + rest[j..]
  {}

  /** The builder after one round is again a finished part and the part still to be resolved. */
  lemma RoundDone(h: Helper, builder: string, done: string, rest: string, startIndex: nat, endIndex: nat,
                  text: string, kept: bool, builder': string, searchPos: nat)
    requires builder == done + rest && First(h, rest).Span?
    requires startIndex == |done| + First(h, rest).start && endIndex == |done| + First(h, rest).end
    requires kept ==> text == h.prefix + rest[First(h, rest).start + |h.prefix|..First(h, rest).end] + h.suffix
    requires endIndex + |h.suffix| <= |builder|
    requires builder' == if kept then builder else builder[..startIndex] + text + builder[endIndex + |h.suffix|..]
    requires searchPos == if kept then endIndex + |h.suffix| else startIndex + |text|
    ensures var Span(start, end) := First(h, rest);
      && builder' == (done + (rest[..start] + text)) + rest[end + |h.suffix|..]
      && searchPos == |done + (rest[..start] + text)|
      && builder'[searchPos..] == rest[end + |h.suffix|..]
  {
    var Span(start, end) := First(h, rest);
    if kept {
      KeptBuilder(h, builder, done, rest);
      KeptLength(h, rest);
    } else {
      BuilderSlices(builder, done, rest, start, end + |h.suffix|, text);
    }
    hide *;
    BuilderSlices(builder', done + (rest[..start] + text), rest[end + |h.suffix|..], 0, 0, "");
  }

  lemma KeptLength(h: Helper, rest: string)
    requires First(h, rest).Span?
    ensures var Span(start, end) := First(h, rest);
      |rest[..start] + (h.prefix + rest[start + |h.prefix|..end] + h.suffix)| == end + |h.suffix|
  {
    hide Index, Close;
  }

  /** One round of the loop of the source: mark the placeholder, resolve it to a key, look the key up,
      resolve the value, unmark it. `kept` tells that the placeholder stays in the text as written. */
  method ExpandPlaceholder(h: Helper, props: Properties, placeholder: string, visited: Visited, ghost fuel: nat)
    returns (r: Outcome, kept: bool)
    requires placeholder !in visited.marks
    requires Expand(h, props, fuel, placeholder, visited.marks) != OutOfFuel
    modifies visited
    ensures r == Expand(h, props, fuel, placeholder, old(visited.marks))
    ensures r.Resolved? ==> visited.marks == old(visited.marks)
    ensures kept ==> r == Resolved(h.prefix + placeholder + h.suffix)
    decreases fuel, 1
  {
    hide ValueOf, Resolve;
    kept := false;
    visited.marks := visited.marks + {placeholder};
    r := ParseStringValueWithVisited(h, props, placeholder, visited, fuel);
    if !r.Resolved? {
      return;
    }
    var key := r.text;
    var propVal := ValueOf(h, props, key);
    if propVal != "" {
      r := ParseStringValueWithVisited(h, props, propVal, visited, fuel);
      if !r.Resolved? {
        return;
      }
    } else if h.ignoreUnresolvable {
      r, kept := Resolved(h.prefix + placeholder + h.suffix), true;
    } else {
      r := Unresolvable(key);
      return;
    }
    visited.marks := visited.marks - {placeholder};
  }

  /** The loop of the source rewrites a builder in place and marks placeholders in a shared map. It
      computes `Resolve`, and gives the map back unchanged unless it fails. The ghost argument bounds
      the computation: without it, the source need not return. */
  method ParseStringValueWithVisited(h: Helper, props: Properties, value: string, visited: Visited, ghost fuel: nat)
    returns (r: Outcome)
    requires Resolve(h, props, fuel, value, visited.marks) != OutOfFuel
    modifies visited
    ensures r == Resolve(h, props, fuel, value, old(visited.marks))
    ensures r.Resolved? ==> visited.marks == old(visited.marks)
    decreases fuel, 0
  {
    hide At, Index, Close, Resolve, Expand, AtRound;
    ghost var marks, result := visited.marks, Resolve(h, props, fuel, value, visited.marks);
    var builder := value;
    var startIndex := Index(builder, h.prefix);
    ghost var done, rest := "", value;
    ghost var left: nat := fuel;
    FirstRound(h, props, marks, fuel, value);
    while startIndex != -1
      invariant -1 <= startIndex && left <= fuel
      invariant visited.marks == marks
      invariant AtRound(h, props, marks, result, builder, startIndex, done, rest, left)
      decreases left
    {
      var endIndex := FindPlaceholderEndIndex(h, builder, startIndex);
      if endIndex == -1 {
        LastRound(h, props, marks, result, builder, startIndex, done, rest, left);
        return Resolved(builder);
      }
      var placeholder := builder[startIndex + |h.prefix|..endIndex];
      RoundStarts(h, props, marks, result, builder, startIndex, done, rest, left, endIndex, placeholder);
      if placeholder in visited.marks {
        return Circular(placeholder);
      }
      var expansion, kept := ExpandPlaceholder(h, props, placeholder, visited, left - 1);
      if !expansion.Resolved? {
        return expansion;
      }
      ghost var builder0, start := builder, startIndex;
      var searchPos;
      if kept {
        searchPos := endIndex + |h.suffix|;
      } else {
        builder := builder[..startIndex] + expansion.text + builder[endIndex + |h.suffix|..];
        searchPos := startIndex + |expansion.text|;
      }
      done, rest := RoundEnds(h, props, marks, result, builder0, start, done, rest, left,
                              endIndex, expansion.text, kept, builder, searchPos);
      left := left - 1;
      var nextIdx := Index(builder[searchPos..], h.prefix);
      startIndex := if nextIdx != -1 then searchPos + nextIdx else -1;
    }
    LastRound(h, props, marks, result, builder, startIndex, done, rest, left);
    return Resolved(builder);
  }
}
