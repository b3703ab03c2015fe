/** Cycle detection is exact: it fires just when resolution without the visited map would not end. */
module PlaceholderCycles {
  import opened PlaceholderScan
  import opened PlaceholderResolve

  // ----- Resolution without the visited map -----

  ghost function Evaluate(h: Helper, props: Properties, fuel: nat, s: string): Outcome
    decreases fuel, 0
  {
    if fuel == 0 then OutOfFuel else EvaluateFirst(h, props, fuel - 1, s)
  }

  ghost function EvaluateFirst(h: Helper, props: Properties, fuel: nat, s: string): Outcome
    decreases fuel, 2
  {
    match First(h, s)
    case NoSpan => Resolved(s)
    case Span(start, end) =>
      Then(EvaluatePlaceholder(h, props, fuel, s[start + |h.prefix|..end]), s[..start],
           Evaluate(h, props, fuel, s[end + |h.suffix|..]))
  }

  ghost function EvaluatePlaceholder(h: Helper, props: Properties, fuel: nat, placeholder: string): Outcome
    decreases fuel, 1
  {
    var key := Evaluate(h, props, fuel, placeholder);
    if !key.Resolved? then key
    else
      var value := ValueOf(h, props, key.text);
      if value != "" then Evaluate(h, props, fuel, value) else Unset(h, placeholder, key.text)
  }

  /** Resolving `s` without the visited map never ends. */
  ghost predicate Diverges(h: Helper, props: Properties, s: string) {
    forall fuel: nat :: Evaluate(h, props, fuel, s) == OutOfFuel
  }

  // ----- More steps never change an outcome -----

  lemma {:induction false} EvaluateMore(h: Helper, props: Properties, fuel: nat, more: nat, s: string)
    requires fuel <= more && Evaluate(h, props, fuel, s) != OutOfFuel
    ensures Evaluate(h, props, more, s) == Evaluate(h, props, fuel, s)
    decreases fuel, 0
  {
    hide First, ValueOf, Prepend;
    if First(h, s).Span? {
      var Span(start, end) := First(h, s);
      EvaluatePlaceholderMore(h, props, fuel - 1, more - 1, s[start + |h.prefix|..end]);
      if EvaluatePlaceholder(h, props, fuel - 1, s[start + |h.prefix|..end]).Resolved? {
        PrependFails(s[..start] + EvaluatePlaceholder(h, props, fuel - 1, s[start + |h.prefix|..end]).text);
        EvaluateMore(h, props, fuel - 1, more - 1, s[end + |h.suffix|..]);
      }
    }
  }

  lemma PrependFails(before: string)
    ensures Prepend(before, OutOfFuel) == OutOfFuel
  {}

  lemma {:induction false} EvaluatePlaceholderMore(h: Helper, props: Properties, fuel: nat, more: nat, placeholder: string)
    requires fuel <= more && EvaluatePlaceholder(h, props, fuel, placeholder) != OutOfFuel
    ensures EvaluatePlaceholder(h, props, more, placeholder) == EvaluatePlaceholder(h, props, fuel, placeholder)
    decreases fuel, 1
  {
    hide First, ValueOf, Prepend;
    EvaluateMore(h, props, fuel, more, placeholder);
    var key := Evaluate(h, props, fuel, placeholder);
    if key.Resolved? && ValueOf(h, props, key.text) != "" {
      EvaluateMore(h, props, fuel, more, ValueOf(h, props, key.text));
    }
  }

  // ----- Where the resolver settles, both computations agree -----

  /** An outcome of the resolver other than a circular reference. */
  predicate Settled(o: Outcome) {
    o.Resolved? || o.Unresolvable?
  }

  lemma {:induction false} ResolveAgrees(h: Helper, props: Properties, fuel: nat, s: string, visited: set<string>)
    requires Settled(Resolve(h, props, fuel, s, visited))
    ensures Evaluate(h, props, fuel, s) == Resolve(h, props, fuel, s, visited)
    decreases fuel, 0
  {
    hide First, ValueOf, Prepend;
    if First(h, s).Span? {
      var Span(start, end) := First(h, s);
      var placeholder := s[start + |h.prefix|..end];
      var expansion := Expand(h, props, fuel - 1, placeholder, visited);
      if expansion.Resolved? {
        PrependFailures(s[..start] + expansion.text, Resolve(h, props, fuel - 1, s[end + |h.suffix|..], visited));
        ResolveAgrees(h, props, fuel - 1, s[end + |h.suffix|..], visited);
      }
      ExpandAgrees(h, props, fuel - 1, placeholder, visited);
    }
  }

  lemma PrependFailures(before: string, rest: Outcome)
    ensures !rest.Resolved? ==> Prepend(before, rest) == rest
    ensures rest.Resolved? ==> Prepend(before, rest).Resolved?
  {}

  lemma {:induction false} ExpandAgrees(h: Helper, props: Properties, fuel: nat, placeholder: string, visited: set<string>)
    requires Settled(Expand(h, props, fuel, placeholder, visited))
    ensures EvaluatePlaceholder(h, props, fuel, placeholder) == Expand(h, props, fuel, placeholder, visited)
    decreases fuel, 1
  {
    hide First, ValueOf, Prepend;
    ResolveAgrees(h, props, fuel, placeholder, visited + {placeholder});
    var key := Resolve(h, props, fuel, placeholder, visited + {placeholder});
    if key.Resolved? && ValueOf(h, props, key.text) != "" {
      ResolveAgrees(h, props, fuel, ValueOf(h, props, key.text), visited + {placeholder});
    }
  }

  /** Any computation that ends has the outcome the resolver settled on. */
  lemma EvaluateIs(h: Helper, props: Properties, fuel: nat, s: string, visited: set<string>, steps: nat)
    requires Settled(Resolve(h, props, fuel, s, visited)) && Evaluate(h, props, steps, s) != OutOfFuel
    ensures Evaluate(h, props, steps, s) == Resolve(h, props, fuel, s, visited)
  {
    hide Resolve, Evaluate;
    ResolveAgrees(h, props, fuel, s, visited);
    if fuel <= steps {
      EvaluateMore(h, props, fuel, steps, s);
    } else {
      EvaluateMore(h, props, steps, fuel, s);
    }
  }

  lemma EvaluatePlaceholderIs(h: Helper, props: Properties, fuel: nat, placeholder: string, visited: set<string>, steps: nat)
    requires Settled(Expand(h, props, fuel, placeholder, visited))
    requires EvaluatePlaceholder(h, props, steps, placeholder) != OutOfFuel
    ensures EvaluatePlaceholder(h, props, steps, placeholder) == Expand(h, props, fuel, placeholder, visited)
  {
    hide Resolve, Evaluate, Expand, EvaluatePlaceholder;
    ExpandAgrees(h, props, fuel, placeholder, visited);
    if fuel <= steps {
      EvaluatePlaceholderMore(h, props, fuel, steps, placeholder);
    } else {
      EvaluatePlaceholderMore(h, props, steps, fuel, placeholder);
    }
  }

  // ----- A circular reference is a demand for the same placeholder, for ever -----

  /** If the resolver meets a circular reference to `q` in `s`, evaluating `s` to an end means having
      evaluated the placeholder `q` to an end, with fewer steps. */
  lemma {:induction false} CircularDemands(h: Helper, props: Properties, fuel: nat, s: string, visited: set<string>, steps: nat)
    returns (fewer: nat)
    requires Resolve(h, props, fuel, s, visited).Circular? && Evaluate(h, props, steps, s) != OutOfFuel
    ensures fewer < steps
    ensures EvaluatePlaceholder(h, props, fewer, Resolve(h, props, fuel, s, visited).placeholder) != OutOfFuel
    decreases fuel, 0
  {
    hide First, ValueOf, Prepend;
    var Span(start, end) := First(h, s);
    var placeholder, after := s[start + |h.prefix|..end], s[end + |h.suffix|..];
    if placeholder in visited {
      fewer := steps - 1;
    } else {
      var expansion := Expand(h, props, fuel - 1, placeholder, visited);
      if expansion.Circular? {
        fewer := ExpandDemands(h, props, fuel - 1, placeholder, visited, steps - 1);
      } else {
        PrependFailures(s[..start] + expansion.text, Resolve(h, props, fuel - 1, after, visited));
        EvaluatePlaceholderIs(h, props, fuel - 1, placeholder, visited, steps - 1);
        PrependFails(s[..start] + expansion.text);
        fewer := CircularDemands(h, props, fuel - 1, after, visited, steps - 1);
      }
    }
  }

  lemma {:induction false} ExpandDemands(h: Helper, props: Properties, fuel: nat, placeholder: string, visited: set<string>, steps: nat)
    returns (fewer: nat)
    requires Expand(h, props, fuel, placeholder, visited).Circular?
    requires EvaluatePlaceholder(h, props, steps, placeholder) != OutOfFuel
    ensures fewer < steps
    ensures EvaluatePlaceholder(h, props, fewer, Expand(h, props, fuel, placeholder, visited).placeholder) != OutOfFuel
    decreases fuel, 1
  {
    hide First, ValueOf, Prepend;
    var key := Resolve(h, props, fuel, placeholder, visited + {placeholder});
    if key.Circular? {
      fewer := CircularDemands(h, props, fuel, placeholder, visited + {placeholder}, steps);
    } else {
      EvaluateIs(h, props, fuel, placeholder, visited + {placeholder}, steps);
      fewer := CircularDemands(h, props, fuel, ValueOf(h, props, key.text), visited + {placeholder}, steps);
    }
  }

  /** A placeholder whose expansion meets itself is never evaluated to an end. */
  lemma {:induction false} SelfDemandNeverEnds(h: Helper, props: Properties, fuel: nat, placeholder: string, visited: set<string>, steps: nat)
    requires Expand(h, props, fuel, placeholder, visited) == Circular(placeholder)
    ensures EvaluatePlaceholder(h, props, steps, placeholder) == OutOfFuel
    decreases steps
  {
    hide Expand, EvaluatePlaceholder;
    if EvaluatePlaceholder(h, props, steps, placeholder) != OutOfFuel {
      var fewer := ExpandDemands(h, props, fuel, placeholder, visited, steps);
      SelfDemandNeverEnds(h, props, fuel, placeholder, visited, fewer);
    }
  }

  /** A circular reference to a placeholder that was not being expanded before is a real cycle. */
  lemma {:induction false} CircularNeverEnds(h: Helper, props: Properties, fuel: nat, s: string, visited: set<string>, steps: nat)
    requires Resolve(h, props, fuel, s, visited).Circular?
    requires Resolve(h, props, fuel, s, visited).placeholder !in visited
    ensures EvaluatePlaceholder(h, props, steps, Resolve(h, props, fuel, s, visited).placeholder) == OutOfFuel
    decreases fuel
  {
    hide First, ValueOf, Prepend;
    var Span(start, end) := First(h, s);
    var placeholder, after := s[start + |h.prefix|..end], s[end + |h.suffix|..];
    var expansion := Expand(h, props, fuel - 1, placeholder, visited);
    if expansion == Circular(placeholder) {
      SelfDemandNeverEnds(h, props, fuel - 1, placeholder, visited, steps);
    } else if expansion.Circular? {
      var key := Resolve(h, props, fuel - 1, placeholder, visited + {placeholder});
      if key.Circular? {
        CircularNeverEnds(h, props, fuel - 1, placeholder, visited + {placeholder}, steps);
      } else {
        CircularNeverEnds(h, props, fuel - 1, ValueOf(h, props, key.text), visited + {placeholder}, steps);
      }
    } else {
      PrependFailures(s[..start] + expansion.text, Resolve(h, props, fuel - 1, after, visited));
      CircularNeverEnds(h, props, fuel - 1, after, visited, steps);
    }
  }

  /** Whenever the resolver returns: it reports a circular reference exactly when resolution without the
      visited map would never end, and otherwise that resolution has the same outcome. */
  lemma CycleDetectionIsExact(h: Helper, props: Properties, fuel: nat, s: string)
    requires Resolve(h, props, fuel, s, {}) != OutOfFuel
    ensures Resolve(h, props, fuel, s, {}).Circular? <==> Diverges(h, props, s)
    ensures !Resolve(h, props, fuel, s, {}).Circular? ==> Evaluate(h, props, fuel, s) == Resolve(h, props, fuel, s, {})
  {
    hide Resolve, Evaluate, EvaluatePlaceholder;
    var outcome := Resolve(h, props, fuel, s, {});
    if outcome.Circular? {
      forall steps: nat ensures Evaluate(h, props, steps, s) == OutOfFuel {
        if Evaluate(h, props, steps, s) != OutOfFuel {
          var fewer := CircularDemands(h, props, fuel, s, {}, steps);
          CircularNeverEnds(h, props, fuel, s, {}, fewer);
        }
      }
    } else {
      ResolveAgrees(h, props, fuel, s, {});
    }
  }
}
