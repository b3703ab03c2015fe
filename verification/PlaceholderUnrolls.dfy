/** With defaults on, resolution need not end: a default can put a dollar sign and a brace together to a
    new, longer placeholder every time, which the visited map never stops. */
module PlaceholderUnrolls {
  import opened Text
  import opened PlaceholderScan
  import opened PlaceholderResolve

  const DELIMITERS: Helper := Helper("${", "}", ":", false)

  const UNROLLING: Properties := map["a" := "$", "b" := "}", "p" := "${a}{z:${a}{p}X", "q" := "${a}{q}${b}"]

  /** Text without the characters that begin a delimiter. */
  predicate Plain(s: string) {
    '$' !in s && '}' !in s
  }

  // ----- Placeholders in texts put together from parts -----

  lemma DelimiterMeans(s: string, i: nat)
    ensures At(s, i, "${") ==> i + 1 < |s| && s[i] == '$' && s[i + 1] == '{'
    ensures At(s, i, "}") ==> i < |s| && s[i] == '}'
  {
    if At(s, i, "${") {
      assert s[i..i + 2][0] == '$' && s[i..i + 2][1] == '{';
    }
  }

  lemma {:induction false} CloseSkipsPlain(plain: string, rest: string, i: nat)
    requires Plain(plain) && i <= |plain|
    ensures Close(DELIMITERS, plain + rest, i) == Close(DELIMITERS, plain + rest, |plain|)
    decreases |plain| - i
  {
    hide Close, At;
    if i < |plain| {
      assert (plain + rest)[i] == plain[i];
      DelimiterMeans(plain + rest, i);
      CloseStep(DELIMITERS, plain + rest, i);
      CloseSkipsPlain(plain, rest, i + 1);
    }
  }

  lemma ClosePlain(plain: string, rest: string)
    requires Plain(plain) && Close(DELIMITERS, rest, 0) != -1
    ensures Close(DELIMITERS, plain + rest, 0) == |plain| + Close(DELIMITERS, rest, 0)
  {
    hide Close;
    CloseSkipsPlain(plain, rest, 0);
    ShiftClose(DELIMITERS, plain, rest, 0, plain + rest, |plain|, |plain|);
  }

  lemma CloseSuffix(rest: string)
    ensures Close(DELIMITERS, "}" + rest, 0) == 0
  {
    assert ("}" + rest)[0..1] == "}";
  }

  /** A text given as what precedes a placeholder, the placeholder's content and the rest. */
  function Parts(plain: string, inner: string, after: string): string {
    plain + ("${" + (inner + ("}" + after)))
  }

  lemma PartsPrefix(plain: string, inner: string, after: string)
    requires '$' !in plain
    ensures var s := Parts(plain, inner, after);
      At(s, |plain|, "${") && !At(s, |plain|, "}") && forall j: nat | j < |plain| :: !At(s, j, "${")
  {
    var s := Parts(plain, inner, after);
    assert s[|plain|..|plain| + 2] == "${";
    hide At;
    DelimiterMeans(s, |plain|);
    forall j: nat | j < |plain| ensures !At(s, j, "${") {
      assert s[j] == plain[j];
      DelimiterMeans(s, j);
    }
  }

  lemma PartsRegrouped(plain: string, inner: string, after: string)
    ensures Parts(plain, inner, after) == (plain + "${") + (inner + ("}" + after))
    ensures Parts(plain, inner, after) == (plain + "${" + inner + "}") + after
  {}

  lemma PartsSlices(plain: string, inner: string, after: string)
    ensures var s := Parts(plain, inner, after);
      && |s| >= |plain| + |inner| + 3
      && s[..|plain|] == plain
      && s[|plain| + 2..|plain| + 2 + |inner|] == inner
      && s[|plain| + 2 + |inner| + 1..] == after
  {}

  /** Closing over a group in front. */
  lemma CloseGroup(inner: string, rest: string)
    requires Close(DELIMITERS, inner + ("}" + rest), 0) == |inner|
    requires Close(DELIMITERS, rest, 0) != -1
    ensures Close(DELIMITERS, Parts("", inner, rest), 0) == 3 + |inner| + Close(DELIMITERS, rest, 0)
  {
    hide Close, At, Parts;
    var tail := inner + ("}" + rest);
    var s, front := Parts("", inner, rest), "" + "${" + inner + "}";
    PartsPrefix("", inner, rest);
    PartsRegrouped("", inner, rest);
    CloseStep(DELIMITERS, s, 0);
    ShiftClose(DELIMITERS, "" + "${", tail, 0, s, 2, 2);
    ShiftClose(DELIMITERS, front, rest, 0, s, 3 + |inner|, 3 + |inner|);
  }

  lemma FirstFrom(s: string, start: nat, end: nat)
    requires Index(s, "${") == start && Close(DELIMITERS, s, start + 2) == end
    ensures First(DELIMITERS, s) == Span(start, end)
  {
    hide Index, Close;
  }

  lemma FirstIs(plain: string, inner: string, after: string)
    requires '$' !in plain && Close(DELIMITERS, inner + ("}" + after), 0) == |inner|
    ensures First(DELIMITERS, Parts(plain, inner, after)) == Span(|plain|, |plain| + 2 + |inner|)
  {
    hide *;
    var tail := inner + ("}" + after);
    var s, front := Parts(plain, inner, after), plain + "${";
    PartsPrefix(plain, inner, after);
    PartsRegrouped(plain, inner, after);
    IndexIsFirst(s, "${", |plain|);
    ShiftClose(DELIMITERS, front, tail, 0, s, |front|, |front|);
    FirstFrom(s, |plain|, |plain| + 2 + |inner|);
  }

  /** Resolution of a text given as plain text, a placeholder and the rest. */
  lemma ResolveParts(fuel: nat, plain: string, inner: string, after: string, visited: set<string>)
    requires fuel > 0 && inner !in visited
    requires '$' !in plain && Close(DELIMITERS, inner + ("}" + after), 0) == |inner|
    ensures Resolve(DELIMITERS, UNROLLING, fuel, Parts(plain, inner, after), visited)
         == Then(Expand(DELIMITERS, UNROLLING, fuel - 1, inner, visited), plain,
                 Resolve(DELIMITERS, UNROLLING, fuel - 1, after, visited))
  {
    hide Close, Resolve, First, Expand, Then, Parts;
    FirstIs(plain, inner, after);
    PartsSlices(plain, inner, after);
    ResolveStep(DELIMITERS, UNROLLING, fuel, Parts(plain, inner, after), visited);
  }

  lemma ResolveWithoutPrefix(fuel: nat, s: string, visited: set<string>)
    requires fuel > 0 && forall i :: 0 <= i < |s| - 1 ==> s[i] != '$' || s[i + 1] != '{'
    ensures Resolve(DELIMITERS, UNROLLING, fuel, s, visited) == Resolved(s)
  {
    hide Close, Resolve, Index, At;
    ResolveStep(DELIMITERS, UNROLLING, fuel, s, visited);
    var i := Index(s, "${");
    if i != -1 {
      DelimiterMeans(s, i);
    }
  }

  // ----- The properties of the example -----

  /** The marks of the example: no single letter is being expanded. */
  predicate LettersFree(visited: set<string>) {
    forall x :: x in visited ==> |x| != 1
  }

  /** An outcome that is `text`, given enough steps. */
  predicate IsText(o: Outcome, text: string) {
    o == OutOfFuel || o == Resolved(text)
  }

  lemma ExpandsToDollarOrBrace(fuel: nat, visited: set<string>)
    ensures "a" !in visited ==> IsText(Expand(DELIMITERS, UNROLLING, fuel, "a", visited), "$")
    ensures "b" !in visited ==> IsText(Expand(DELIMITERS, UNROLLING, fuel, "b", visited), "}")
  {
    hide Resolve, First;
    if fuel > 0 {
      ResolveWithoutPrefix(fuel, "a", visited + {"a"});
      ResolveWithoutPrefix(fuel, "$", visited + {"a"});
      ResolveWithoutPrefix(fuel, "b", visited + {"b"});
      ResolveWithoutPrefix(fuel, "}", visited + {"b"});
    } else {
      OutOfFuelAtOnce("a", visited + {"a"});
      OutOfFuelAtOnce("b", visited + {"b"});
    }
  }

  lemma OutOfFuelAtOnce(s: string, visited: set<string>)
    ensures Resolve(DELIMITERS, UNROLLING, 0, s, visited) == OutOfFuel
  {}

  /** `IsText` of a text given as plain text, a placeholder and the rest. */
  lemma TextOfParts(fuel: nat, plain: string, inner: string, after: string, visited: set<string>, text: string, rest: string)
    requires '$' !in plain && inner !in visited
    requires Close(DELIMITERS, inner + ("}" + after), 0) == |inner|
    requires fuel > 0 ==> IsText(Expand(DELIMITERS, UNROLLING, fuel - 1, inner, visited), text)
    requires fuel > 0 ==> IsText(Resolve(DELIMITERS, UNROLLING, fuel - 1, after, visited), rest)
    ensures IsText(Resolve(DELIMITERS, UNROLLING, fuel, Parts(plain, inner, after), visited), plain + text + rest)
  {
    hide Resolve, Expand, Close;
    if fuel == 0 {
      OutOfFuelAtOnce(Parts(plain, inner, after), visited);
    } else {
      ResolveParts(fuel, plain, inner, after, visited);
    }
  }

  lemma TextWithoutPrefix(fuel: nat, s: string, visited: set<string>)
    requires forall i :: 0 <= i < |s| - 1 ==> s[i] != '$' || s[i + 1] != '{'
    ensures IsText(Resolve(DELIMITERS, UNROLLING, fuel, s, visited), s)
  {
    hide Resolve;
    if fuel == 0 {
      OutOfFuelAtOnce(s, visited);
    } else {
      ResolveWithoutPrefix(fuel, s, visited);
    }
  }

  lemma CloseWord(word: string, rest: string)
    requires Plain(word)
    ensures Close(DELIMITERS, word + ("}" + rest), 0) == |word|
  {
    hide Close;
    CloseSuffix(rest);
    ClosePlain(word, "}" + rest);
  }

  /** The value of `p` opens a placeholder and closes none. */
  lemma ResolvesP(fuel: nat, visited: set<string>)
    requires "a" !in visited
    ensures IsText(Resolve(DELIMITERS, UNROLLING, fuel, UNROLLING["p"], visited), "${z:${p}X")
  {
    hide Resolve, Expand, IsText, Close;
    if fuel > 1 {
      TextWithoutPrefix(fuel - 2, "{p}X", visited);
      ExpandsToDollarOrBrace(fuel - 2, visited);
    }
    CloseWord("a", "{p}X");
    if fuel > 0 {
      TextOfParts(fuel - 1, "{z:", "a", "{p}X", visited, "$", "{p}X");
      ExpandsToDollarOrBrace(fuel - 1, visited);
    }
    var after := Parts("{z:", "a", "{p}X");
    CloseWord("a", after);
    TextOfParts(fuel, "", "a", after, visited, "$", "{z:" + "$" + "{p}X");
    assert Parts("", "a", after) == UNROLLING["p"];
    assert "" + "$" + ("{z:" + "$" + "{p}X") == "${z:${p}X";
  }

  /** The value of `q` carries `q` on and closes one placeholder. */
  lemma ResolvesQ(fuel: nat, visited: set<string>)
    requires "a" !in visited && "b" !in visited
    ensures IsText(Resolve(DELIMITERS, UNROLLING, fuel, UNROLLING["q"], visited), "${q}}")
  {
    hide Resolve, Expand, IsText, Close;
    if fuel > 1 {
      TextWithoutPrefix(fuel - 2, "", visited);
      ExpandsToDollarOrBrace(fuel - 2, visited);
    }
    CloseWord("b", "");
    if fuel > 0 {
      TextOfParts(fuel - 1, "{q}", "b", "", visited, "}", "");
      ExpandsToDollarOrBrace(fuel - 1, visited);
    }
    var after := Parts("{q}", "b", "");
    CloseWord("a", after);
    TextOfParts(fuel, "", "a", after, visited, "$", "{q}" + "}" + "");
    assert Parts("", "a", after) == UNROLLING["q"];
    assert "" + "$" + ("{q}" + "}" + "") == "${q}}";
  }

  lemma ExpandsPOrQ(fuel: nat, visited: set<string>)
    requires LettersFree(visited)
    ensures IsText(Expand(DELIMITERS, UNROLLING, fuel, "p", visited), "${z:${p}X")
    ensures IsText(Expand(DELIMITERS, UNROLLING, fuel, "q", visited), "${q}}")
  {
    hide Resolve;
    TextWithoutPrefix(fuel, "p", visited + {"p"});
    ResolvesP(fuel, visited + {"p"});
    TextWithoutPrefix(fuel, "q", visited + {"q"});
    ResolvesQ(fuel, visited + {"q"});
  }

  // ----- The placeholder that grows -----

  function Xs(k: nat): (s: string)
    ensures |s| == k && Plain(s)
  {
    seq(k, _ => 'X')
  }

  /** The raw placeholder after `k` rounds. */
  function Body(k: nat): (s: string)
    ensures |s| == k + 10
  {
    Parts("z:", "p", Parts(Xs(k), "q", ""))
  }

  lemma BodyBefore(k: nat, rest: string)
    ensures Body(k) + rest == "z:" + Parts("", "p", Xs(k) + Parts("", "q", rest))
  {
    hide Xs;
  }

  lemma BodyCloses(k: nat, rest: string)
    ensures Close(DELIMITERS, Body(k) + ("}" + rest), 0) == |Body(k)|
  {
    hide Close, Xs, Parts, Body;
    var closing := "}" + rest;
    CloseSuffix(rest);
    CloseWord("q", closing);
    CloseGroup("q", closing);
    var s1 := Parts("", "q", closing);
    ClosePlain(Xs(k), s1);
    var s2 := Xs(k) + s1;
    CloseWord("p", s2);
    CloseGroup("p", s2);
    ClosePlain("z:", Parts("", "p", s2));
    BodyBefore(k, closing);
  }

  /** The placeholder of `k` rounds as a text. */
  function Next(k: nat): (s: string)
    ensures s != ""
  {
    Parts("", Body(k), "")
  }

  /** One round: the placeholder of `k` rounds resolves to a key holding the next one. */
  lemma BodyResolves(fuel: nat, k: nat, visited: set<string>)
    requires LettersFree(visited)
    ensures IsText(Resolve(DELIMITERS, UNROLLING, fuel, Body(k), visited), "z:" + Next(k + 1))
  {
    hide Resolve, Expand, IsText, Close, Xs;
    if fuel > 1 {
      TextWithoutPrefix(fuel - 2, "", visited);
      ExpandsPOrQ(fuel - 2, visited);
    }
    CloseWord("q", "");
    if fuel > 0 {
      TextOfParts(fuel - 1, Xs(k), "q", "", visited, "${q}}", "");
      ExpandsPOrQ(fuel - 1, visited);
    }
    var after := Parts(Xs(k), "q", "");
    CloseWord("p", after);
    TextOfParts(fuel, "z:", "p", after, visited, "${z:${p}X", Xs(k) + "${q}}" + "");
    NextText(k);
  }

  lemma NextText(k: nat)
    ensures "z:" + "${z:${p}X" + (Xs(k) + "${q}}" + "") == "z:" + Next(k + 1)
  {
    assert "X" + Xs(k) == Xs(k + 1);
    assert Body(k + 1) == "z:${p}" + Xs(k + 1) + "${q}";
  }

  /** The key has no value, so its default is resolved: the next placeholder. */
  lemma DefaultIsNext(k: nat)
    ensures ValueOf(DELIMITERS, UNROLLING, "z:" + Next(k)) == Next(k)
  {
    var next := Next(k);
    var key := "z:" + next;
    assert |next| > 1 && key !in UNROLLING;
    assert key[1..2] == ":" && key[0] == 'z';
    assert At(key, 1, ":") && !At(key, 0, ":");
    hide At, Body;
    IndexIsFirst(key, ":", 1);
    assert key[..1] == "z" && key[2..] == next;
  }

  /** Every marked placeholder is shorter than the next one and longer than a letter. */
  predicate Shorter(visited: set<string>, k: nat) {
    forall x :: x in visited ==> 10 <= |x| < k + 10
  }

  lemma {:induction false} NeverResolved(fuel: nat, k: nat, visited: set<string>)
    requires Shorter(visited, k)
    ensures Resolve(DELIMITERS, UNROLLING, fuel, Next(k), visited) == OutOfFuel
    decreases fuel
  {
    hide Resolve, Close, Body, Parts;
    if fuel == 0 {
      OutOfFuelAtOnce(Next(k), visited);
    } else {
      BodyCloses(k, "");
      assert |Body(k)| == k + 10;
      ResolveParts(fuel, "", Body(k), "", visited);
      BodyResolves(fuel - 1, k, visited + {Body(k)});
      DefaultIsNext(k + 1);
      NeverResolved(fuel - 1, k + 1, visited + {Body(k)});
    }
  }

  lemma NextAtStart()
    ensures Next(0) == "${z:${p}${q}}"
  {}

  /** With defaults on, four properties and one text make the resolver of the source run for ever: no
      number of steps ends it, and no circular reference is reported. */
  lemma DefaultsCanUnrollForEver(fuel: nat)
    ensures Resolve(DELIMITERS, UNROLLING, fuel, "${z:${p}${q}}", {}) == OutOfFuel
  {
    hide Resolve, Next;
    NeverResolved(fuel, 0, {});
    NextAtStart();
  }
}
