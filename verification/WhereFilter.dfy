/** Leaving out the conditions whose parameters are not set
    (`contribute/agdb/conditonwhere/fieldmask.go`). */
module WhereFilter {
  import opened Options
  import opened Text
  import opened WhereParser
  import opened WherePrinter
  import opened WhereRoundTrip
  import opened WhereScan
  import opened WhereWildcards

  predicate EndsParamName(c: char) {
    c == ' ' || c == ')' || c == '%' || c == '_'
  }

  /** The text up to the first character that ends a parameter name. */
  function UpToEnd(s: string): string {
    if s == "" || EndsParamName(s[0]) then "" else [s[0]] + UpToEnd(s[1..])
  }

  /** The first parameter of an expression, as the source reads it: up to a blank, a parenthesis or a
      wildcard, underscores among them. */
  function ParamName(expr: string): string {
    var at := Index(expr, "@");
    if at == -1 then "" else UpToEnd(expr[at + 1..])
  }

  method ExtractParamName(expr: string) returns (name: string)
    ensures name == ParamName(expr)
  {
    hide Index, UpToEnd;
    var idx := Index(expr, "@");
    if idx == -1 {
      return "";
    }
    var rest := expr[idx + 1..];
    var i := 0;
    while i < |rest|
      invariant 0 <= i <= |rest|
      invariant forall j :: 0 <= j < i ==> !EndsParamName(rest[j])
    {
      if EndsParamName(rest[i]) {
        UpToEndIs(rest, i);
        return rest[..i];
      }
      i := i + 1;
    }
    UpToEndIs(rest, i);
    return rest;
  }

  lemma {:induction false} UpToEndIs(s: string, i: nat)
    requires i <= |s| && (forall j :: 0 <= j < i ==> !EndsParamName(s[j])) && (i == |s| || EndsParamName(s[i]))
    ensures UpToEnd(s) == s[..i]
  {
    if i > 0 {
      UpToEndIs(s[1..], i - 1);
      assert s[..i] == [s[0]] + s[1..][..i - 1];
    }
  }

  /** An expression stays when it has no parameter, or its first one, as the source reads it, is set. */
  predicate Stays(mask: set<string>, expr: string) {
    ParamName(expr) == "" || ParamName(expr) in mask
  }

  function Filtered(mask: set<string>, c: Condition): Option<Condition>
    decreases c, 0
  {
    if c.expr != "" then
      if Stays(mask, c.expr) then Some(Condition(c.expr, c.operator, [])) else None
    else
      var kept := FilteredAll(mask, c.conditions);
      if kept == [] then None else Some(Condition("", c.operator, kept))
  }

  function FilteredAll(mask: set<string>, cs: seq<Condition>): seq<Condition>
    decreases cs, 1
  {
    if cs == [] then [] else Append([], Filtered(mask, cs[0])) + FilteredAll(mask, cs[1..])
  }

  method FilterMaskWhereCondition(mask: Option<set<string>>, condition: Condition) returns (r: Option<Condition>)
    ensures r == if mask.None? then None else Filtered(mask.value, condition)
    decreases condition
  {
    if mask.None? {
      return None;
    }
    hide Stays, ParamName;
    if condition.expr != "" {
      var paramName := ExtractParamName(condition.expr);
      if paramName != "" && paramName !in mask.value {
        StaysOnlyIf(mask.value, condition.expr);
        return None;
      }
      StaysOnlyIf(mask.value, condition.expr);
      return Some(Condition(condition.expr, condition.operator, []));
    }
    if condition.conditions == [] {
      return None;
    }
    var filtered: seq<Condition>, i := [], 0;
    while i < |condition.conditions|
      invariant 0 <= i <= |condition.conditions|
      invariant FilteredAll(mask.value, condition.conditions) == filtered + FilteredAll(mask.value, condition.conditions[i..])
    {
      var one := FilterMaskWhereCondition(mask, condition.conditions[i]);
      assert condition.conditions[i..][1..] == condition.conditions[i + 1..];
      Regroup(filtered, one, FilteredAll(mask.value, condition.conditions[i + 1..]));
      filtered := Append(filtered, one);
      i := i + 1;
    }
    assert filtered + [] == filtered;
    if filtered == [] {
      return None;
    }
    return Some(Condition("", condition.operator, filtered));
  }

  lemma StaysOnlyIf(mask: set<string>, expr: string)
    ensures Stays(mask, expr) <==> ParamName(expr) == "" || ParamName(expr) in mask
  {}

  lemma Regroup(a: seq<Condition>, c: Option<Condition>, b: seq<Condition>)
    ensures a + (Append([], c) + b) == Append(a, c) + b
  {}

  // ----- What is left -----

  /** The expressions of a condition, in order. */
  function Leaves(c: Condition): seq<string> {
    if c.expr != "" then [c.expr] else LeavesOfAll(c.conditions)
  }

  function LeavesOfAll(cs: seq<Condition>): seq<string> {
    if cs == [] then [] else Leaves(cs[0]) + LeavesOfAll(cs[1..])
  }

  function Kept(mask: set<string>, exprs: seq<string>): seq<string> {
    if exprs == [] then [] else (if Stays(mask, exprs[0]) then [exprs[0]] else []) + Kept(mask, exprs[1..])
  }

  lemma {:induction false} KeptOfConcat(mask: set<string>, a: seq<string>, b: seq<string>)
    ensures Kept(mask, a + b) == Kept(mask, a) + Kept(mask, b)
  {
    hide Stays;
    if a == [] {
      assert a + b == b;
    } else {
      assert (a + b)[1..] == a[1..] + b;
      KeptOfConcat(mask, a[1..], b);
    }
  }

  /** Filtering keeps just the expressions without a parameter or with their first parameter, as read, set, in
      order; and gives nothing just when none is left. */
  lemma {:induction false} FilterKeepsTheSet(mask: set<string>, c: Condition)
    ensures match Filtered(mask, c)
      case None => Kept(mask, Leaves(c)) == []
      case Some(f) => Leaves(f) == Kept(mask, Leaves(c)) != []
    decreases c, 0
  {
    hide Stays;
    if c.expr == "" {
      FilterAllKeepsTheSet(mask, c.conditions);
    }
  }

  lemma {:induction false} FilterAllKeepsTheSet(mask: set<string>, cs: seq<Condition>)
    ensures LeavesOfAll(FilteredAll(mask, cs)) == Kept(mask, LeavesOfAll(cs))
    ensures FilteredAll(mask, cs) == [] <==> Kept(mask, LeavesOfAll(cs)) == []
    decreases cs, 1
  {
    hide Stays, Filtered, Leaves;
    if cs != [] {
      FilterKeepsTheSet(mask, cs[0]);
      FilterAllKeepsTheSet(mask, cs[1..]);
      KeptOfConcat(mask, Leaves(cs[0]), LeavesOfAll(cs[1..]));
      match Filtered(mask, cs[0])
      case None => assert [] + FilteredAll(mask, cs[1..]) == FilteredAll(mask, cs[1..]);
      case Some(f) =>
        var rest := FilteredAll(mask, cs[1..]);
        assert ([f] + rest)[0] == f && ([f] + rest)[1..] == rest;
    }
  }

  /** `f` is `c` without some of its parts: expressions, operators, nesting and order are those of `c`. */
  ghost predicate Pruned(f: Condition, c: Condition)
    decreases c, 0
  {
    f.expr == c.expr && f.operator == c.operator && (c.expr != "" ==> f.conditions == [])
    && (c.expr == "" ==> AllPruned(f.conditions, c.conditions))
  }

  ghost predicate AllPruned(fs: seq<Condition>, cs: seq<Condition>)
    decreases cs, 1
  {
    if cs == [] then fs == []
    else AllPruned(fs, cs[1..]) || (fs != [] && Pruned(fs[0], cs[0]) && AllPruned(fs[1..], cs[1..]))
  }

  /** Filtering only takes parts away: what is left is joined as it was. */
  lemma {:induction false} FilterKeepsTheShape(mask: set<string>, c: Condition)
    ensures Filtered(mask, c).Some? ==> Pruned(Filtered(mask, c).value, c)
    decreases c, 0
  {
    hide Stays;
    if c.expr == "" {
      FilterAllKeepsTheShape(mask, c.conditions);
    }
  }

  lemma {:induction false} FilterAllKeepsTheShape(mask: set<string>, cs: seq<Condition>)
    ensures AllPruned(FilteredAll(mask, cs), cs)
    decreases cs, 1
  {
    hide Filtered, Pruned;
    if cs != [] {
      FilterKeepsTheShape(mask, cs[0]);
      FilterAllKeepsTheShape(mask, cs[1..]);
      var rest := FilteredAll(mask, cs[1..]);
      match Filtered(mask, cs[0])
      case None => assert [] + rest == rest;
      case Some(f) => assert ([f] + rest)[0] == f && ([f] + rest)[1..] == rest;
    }
  }

  /** The printer never meets a group without conditions in what the filter leaves: it prints it if and only
      if in none of its expressions parameters collide around wildcards. */
  lemma FilteredIsPrinted(mask: set<string>, c: Condition)
    requires Filtered(mask, c).Some?
    ensures var f := Filtered(mask, c).value;
      Rendered(f).Sql? <==> forall e :: e in Leaves(f) ==> !CollidesFrom(e, 0)
  {
    hide Filtered, Leaves, Rendered, CollidesFrom, Converted;
    FilteredHasNoEmptyGroup(mask, c);
    var f := Filtered(mask, c).value;
    PrintedExactly(f);
    forall e ensures Converted(e).Some? <==> !CollidesFrom(e, 0) {
      PanicsExactlyOnCollisions(e);
    }
  }

  /** In particular when no wildcard touches a parameter. */
  lemma FilteredWithoutWildcardsIsPrinted(mask: set<string>, c: Condition)
    requires Filtered(mask, c).Some? && forall e :: e in Leaves(c) ==> WildcardFree(e)
    ensures Rendered(Filtered(mask, c).value).Sql?
  {
    hide Filtered, Leaves, Rendered, CollidesFrom, WildcardFree, Stays;
    FilteredIsPrinted(mask, c);
    FilterKeepsTheSet(mask, c);
    var f := Filtered(mask, c).value;
    forall e | e in Leaves(f) ensures !CollidesFrom(e, 0) {
      KeptIsPart(mask, Leaves(c), e);
      WildcardFreeNeverCollides(e);
    }
  }

  lemma {:induction false} KeptIsPart(mask: set<string>, exprs: seq<string>, e: string)
    requires e in Kept(mask, exprs)
    ensures e in exprs
  {
    hide Stays;
    if e !in (if Stays(mask, exprs[0]) then [exprs[0]] else []) {
      KeptIsPart(mask, exprs[1..], e);
    }
  }

  /** No group in the condition is empty. */
  predicate NoEmptyGroup(c: Condition) {
    c.expr != "" || (c.conditions != [] && forall i :: 0 <= i < |c.conditions| ==> NoEmptyGroup(c.conditions[i]))
  }

  lemma {:induction false} FilteredHasNoEmptyGroup(mask: set<string>, c: Condition)
    ensures Filtered(mask, c).Some? ==> NoEmptyGroup(Filtered(mask, c).value)
    decreases c, 0
  {
    hide Stays;
    if c.expr == "" {
      AllFilteredHaveNoEmptyGroup(mask, c.conditions);
    }
  }

  lemma {:induction false} AllFilteredHaveNoEmptyGroup(mask: set<string>, cs: seq<Condition>)
    ensures forall i :: 0 <= i < |FilteredAll(mask, cs)| ==> NoEmptyGroup(FilteredAll(mask, cs)[i])
    decreases cs, 1
  {
    hide Filtered, NoEmptyGroup;
    if cs != [] {
      FilteredHasNoEmptyGroup(mask, cs[0]);
      AllFilteredHaveNoEmptyGroup(mask, cs[1..]);
    }
  }

  lemma {:induction false} PrintedExactly(c: Condition)
    requires NoEmptyGroup(c)
    ensures Rendered(c).Sql? <==> forall e :: e in Leaves(c) ==> Converted(e).Some?
    decreases c, 0
  {
    hide Converted, Join;
    if c.expr != "" {
      assert c.expr in Leaves(c);
    } else {
      PartsPrintedExactly(c.conditions);
    }
  }

  lemma {:induction false} PartsPrintedExactly(cs: seq<Condition>)
    requires forall i :: 0 <= i < |cs| ==> NoEmptyGroup(cs[i])
    ensures RenderedParts(cs).Parts? <==> forall e :: e in LeavesOfAll(cs) ==> Converted(e).Some?
    decreases cs, 1
  {
    hide Rendered, Leaves, Converted, NoEmptyGroup;
    if cs != [] {
      PrintedExactly(cs[0]);
      PartsPrintedExactly(cs[1..]);
      assert LeavesOfAll(cs) == Leaves(cs[0]) + LeavesOfAll(cs[1..]);
    }
  }

  /** With every parameter set, a printable condition is left as it is. */
  lemma {:induction false} FilterKeepsAll(mask: set<string>, c: Condition)
    requires Printable(c) && forall e :: e in Leaves(c) ==> Stays(mask, e)
    ensures Filtered(mask, c) == Some(c)
    decreases c, 0
  {
    hide Stays, LeafText, ValidLeaf;
    if c.expr == "" {
      FilterAllKeepsAll(mask, c.conditions);
    }
  }

  lemma {:induction false} FilterAllKeepsAll(mask: set<string>, cs: seq<Condition>)
    requires AllPrintable(cs) && forall e :: e in LeavesOfAll(cs) ==> Stays(mask, e)
    ensures FilteredAll(mask, cs) == cs
    decreases cs, 1
  {
    hide Stays, Filtered, Printable, Leaves;
    if cs != [] {
      FilterKeepsAll(mask, cs[0]);
      FilterAllKeepsAll(mask, cs[1..]);
      assert [cs[0]] + cs[1..] == cs;
    }
  }

  // ----- The parameters of an expression -----

  lemma {:induction false} UpToEndOfName(p: string, w: string)
    requires (forall j :: 0 <= j < |p| ==> IsNameChar(p[j])) && (w == "" || EndsParamName(w[0]))
    ensures UpToEnd(p + w) == UpToEnd(p) && (UpToEnd(p) == p <==> '_' !in p)
  {
    if p == "" {
      assert p + w == w;
    } else {
      assert (p + w)[1..] == p[1..] + w;
      UpToEndOfName(p[1..], w);
      assert '_' in p <==> p[0] == '_' || '_' in p[1..];
    }
  }

  lemma ParamNameAfter(u: string, p: string, w: string)
    requires '@' !in u && Name(p) && (w == "" || EndsParamName(w[0]))
    ensures ParamName(u + "@" + p + w) == UpToEnd(p)
  {
    hide UpToEnd;
    var e := u + "@" + p + w;
    forall j: nat | j < |u| ensures !At(e, j, "@") {
      assert e[j] == u[j];
    }
    assert e[|u|..|u| + 1] == "@";
    IndexIsFirst(e, "@", |u|);
    assert e[|u| + 1..] == p + w;
    UpToEndOfName(p, w);
  }

  /** The name is read from the first sign to the first blank, closing parenthesis, or wildcard behind it. */
  lemma NameIsReadUpTo(e: string, i: nat, j: nat)
    requires i < j <= |e| && e[i] == '@' && (forall k :: 0 <= k < i ==> e[k] != '@')
    requires (forall k :: i < k < j ==> e[k] !in " )%_") && (j < |e| ==> e[j] in " )%_")
    ensures ParamName(e) == e[i + 1..j]
  {
    hide UpToEnd;
    forall k: nat | k < i ensures !At(e, k, "@") {
      AtBegins(e, k, "@");
    }
    assert e[i..i + 1] == "@";
    IndexIsFirst(e, "@", i);
    UpToEndIs(e[i + 1..], j - i - 1);
    assert e[i + 1..][..j - i - 1] == e[i + 1..j];
  }

  lemma NoNameIsRead(e: string)
    requires '@' !in e
    ensures ParamName(e) == ""
  {
    hide UpToEnd, At, Index;
    forall k: nat ensures !At(e, k, "@") {
      AtBegins(e, k, "@");
    }
  }

  function FirstParam(l: Leaf): string {
    match l
    case Compare(_, _, param) => param
    case Between(_, _, low, _, _) => low
    case InList(_, _, param) => param
  }

  /** All parameters of the expression are set. */
  predicate AllSet(mask: set<string>, l: Leaf) {
    FirstParam(l) in mask && (l.Between? ==> l.high in mask)
  }

  /** What stands before the first parameter of an expression, and behind it. */
  function Lead(l: Leaf): string {
    match l
    case Compare(column, op, _) => column + (" " + (op + " "))
    case Between(column, between, _, _, _) => column + (" " + (between + " "))
    case InList(column, within, _) => column + (" " + (within + (" " + "(")))
  }

  function Trail(l: Leaf): string {
    match l
    case Compare(_, _, _) => ""
    case Between(_, _, _, and, high) => " " + (and + (" " + ("@" + high)))
    case InList(_, _, _) => ")"
  }

  lemma LeafAroundParam(l: Leaf)
    ensures LeafText(l) == Lead(l) + "@" + FirstParam(l) + Trail(l)
  {
    var p := FirstParam(l);
    match l
    case Compare(column, op, _) =>
      assert column + (" " + (op + (" " + ("@" + p)))) == column + (" " + (op + " ")) + "@" + p + "";
    case Between(column, between, _, and, high) =>
      assert column + (" " + (between + (" " + (("@" + p) + (" " + (and + (" " + ("@" + high))))))))
          == column + (" " + (between + " ")) + "@" + p + (" " + (and + (" " + ("@" + high))));
    case InList(column, w, _) =>
      assert column + (" " + (w + (" " + ("(" + (("@" + p) + ")"))))) == column + (" " + (w + (" " + "("))) + "@" + p + ")";
  }

  lemma ReadName(l: Leaf)
    requires ValidLeaf(l)
    ensures ParamName(LeafText(l)) == UpToEnd(FirstParam(l))
  {
    hide ParamName, UpToEnd, LeafText, Word;
    LeafAroundParam(l);
    ParamNameAfter(Lead(l), FirstParam(l), Trail(l));
  }

  /** An expression is left just when all its parameters are set, whichever those are, if and only if the name
      of its first parameter has no underscore, where the source cuts it, and a BETWEEN has one parameter
      for both bounds, since the source never looks at the second. */
  lemma StaysExactlyWhenAllSet(l: Leaf)
    requires ValidLeaf(l)
    ensures (forall mask :: Stays(mask, LeafText(l)) <==> AllSet(mask, l))
       <==> '_' !in FirstParam(l) && (l.Between? ==> l.low == l.high)
  {
    hide LeafText, UpToEnd, ParamName, Word;
    var read, first := ParamName(LeafText(l)), FirstParam(l);
    ReadName(l);
    UpToEndOfName(first, "");
    assert first + "" == first;
    if read != first || (l.Between? && l.low != l.high) {
      assert Stays({read}, LeafText(l)) && !AllSet({read}, l);
    }
  }

  /** The same goes for a comparison with wildcards around its parameter, which are not part of the name. */
  lemma StaysExactlyWhenSetInLike(l: Leaf, left: string, right: string)
    requires l.Compare? && ValidLeaf(l) && AllWild(left) && AllWild(right) && (right != "" ==> right[0] == '%')
    ensures (forall mask :: Stays(mask, l.column + (" " + (l.op + (" " + left))) + "@" + l.param + right) <==> l.param in mask)
       <==> '_' !in l.param
  {
    hide UpToEnd, ParamName, Word;
    var lead := l.column + (" " + (l.op + (" " + left)));
    ParamNameAfter(lead, l.param, right);
    var e := lead + "@" + l.param + right;
    UpToEndOfName(l.param, right);
    var read := ParamName(e);
    if read != l.param {
      assert Stays({read}, e) && l.param !in {read};
    }
  }
}
