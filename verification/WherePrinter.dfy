/** The printer of WHERE conditions (`tool/cmd/gen-go-db/conditonwhere/fieldmask.go`,
    `contribute/agdb/conditonwhere/fieldmask.go`). */
module WherePrinter {
  import opened Options
  import opened WhereParser

  // ----- Wildcards -----

  predicate IsNameChar(c: char) {
    'a' <= c <= 'z' || 'A' <= c <= 'Z' || '0' <= c <= '9' || c == '_'
  }

  predicate IsWild(c: char) {
    c == '%' || c == '_'
  }

  /** The next parameter sign from `i` on, or the end. */
  function NextSign(e: string, i: nat): (r: nat)
    requires i <= |e|
    ensures i <= r <= |e| && (r < |e| ==> e[r] == '@')
    decreases |e| - i
  {
    if i < |e| && e[i] != '@' then NextSign(e, i + 1) else i
  }

  /** Where the wildcards before `i` begin. */
  function WildStart(e: string, i: nat): (r: nat)
    requires i <= |e|
    ensures r <= i
  {
    if i > 0 && IsWild(e[i - 1]) then WildStart(e, i - 1) else i
  }

  function NameEnd(e: string, i: nat): (r: nat)
    requires i <= |e|
    ensures i <= r <= |e|
    decreases |e| - i
  {
    if i < |e| && IsNameChar(e[i]) then NameEnd(e, i + 1) else i
  }

  function WildEnd(e: string, i: nat): (r: nat)
    requires i <= |e|
    ensures i <= r <= |e|
    decreases |e| - i
  {
    if i < |e| && IsWild(e[i]) then WildEnd(e, i + 1) else i
  }

  /** What one round of the rewriting does: nothing is left, a piece is copied, a parameter and its wildcards
      become a CONCAT, or the slice bounds of the source cross, where it panics. */
  datatype Piece = Rest | Copied(to: nat) | Concat(from: nat, to: nat, text: string) | Crossed

  function NextPiece(e: string, lastEnd: nat): (r: Piece)
    requires lastEnd <= |e|
    ensures r.Copied? ==> lastEnd < r.to <= |e|
    ensures r.Concat? ==> lastEnd <= r.from <= r.to <= |e| && lastEnd < r.to
  {
    var at := NextSign(e, lastEnd);
    if at == |e| then Rest
    else
      var preStart, nameEnd := WildStart(e, at), NameEnd(e, at + 1);
      var wcEnd := WildEnd(e, nameEnd);
      if nameEnd == at + 1 || (preStart == at && wcEnd == nameEnd) then Copied(at + 1)
      else if preStart < lastEnd then Crossed
      else
        Concat(preStart, wcEnd, ConcatText(e[preStart..at], e[at..nameEnd], e[nameEnd..wcEnd]))
  }

  /** The parameter between wildcards, those as strings. */
  function ConcatText(left: string, parameter: string, right: string): string {
    "CONCAT(" + (if left != "" then "'" + left + "', " else "") + parameter
    + (if right != "" then ", '" + right + "'" else "") + ")"
  }

  /** The text from `lastEnd` on rewritten, after `out`. */
  function ConvertFrom(e: string, lastEnd: nat, out: string): Option<string>
    requires lastEnd <= |e|
    decreases |e| - lastEnd
  {
    match NextPiece(e, lastEnd)
    case Rest => Some(if lastEnd == 0 then e else out + e[lastEnd..])
    case Copied(to) => ConvertFrom(e, to, out + e[lastEnd..to])
    case Concat(from, to, text) => ConvertFrom(e, to, out + e[lastEnd..from] + text)
    case Crossed => None
  }

  function Converted(e: string): Option<string> {
    ConvertFrom(e, 0, "")
  }

  method FindSign(e: string, from: nat) returns (at: nat)
    requires from <= |e|
    ensures at == NextSign(e, from)
  {
    at := from;
    while at < |e| && e[at] != '@'
      invariant from <= at <= |e| && NextSign(e, at) == NextSign(e, from)
    {
      at := at + 1;
    }
  }

  method FindWildStart(e: string, at: nat) returns (start: nat)
    requires at <= |e|
    ensures start == WildStart(e, at)
  {
    start := at;
    while start > 0 && IsWild(e[start - 1])
      invariant start <= at && WildStart(e, start) == WildStart(e, at)
    {
      start := start - 1;
    }
  }

  method FindNameEnd(e: string, from: nat) returns (end: nat)
    requires from <= |e|
    ensures end == NameEnd(e, from)
  {
    end := from;
    while end < |e| && IsNameChar(e[end])
      invariant from <= end <= |e| && NameEnd(e, end) == NameEnd(e, from)
    {
      end := end + 1;
    }
  }

  method FindWildEnd(e: string, from: nat) returns (end: nat)
    requires from <= |e|
    ensures end == WildEnd(e, from)
  {
    end := from;
    while end < |e| && IsWild(e[end])
      invariant from <= end <= |e| && WildEnd(e, end) == WildEnd(e, from)
    {
      end := end + 1;
    }
  }

  /** The rewriting loop of the source. */
  method ConvertLikeWildcards(expr: string) returns (r: Option<string>)
    ensures r == Converted(expr)
  {
    hide NextSign, WildStart, NameEnd, WildEnd, NextPiece;
    var buf, lastEnd := "", 0;
    while true
      invariant lastEnd <= |expr| && ConvertFrom(expr, lastEnd, buf) == Converted(expr)
      decreases |expr| - lastEnd
    {
      var piece := ReadPiece(expr, lastEnd);
      match piece {
        case Rest =>
          return Some(if lastEnd == 0 then expr else buf + expr[lastEnd..]);
        case Copied(to) =>
          buf := buf + expr[lastEnd..to];
          lastEnd := to;
        case Concat(from, to, text) =>
          buf := buf + expr[lastEnd..from] + text;
          lastEnd := to;
        case Crossed =>
          return None;
      }
    }
  }

  /** One round: the next parameter sign, the wildcards before it, the name and the wildcards behind it. */
  method ReadPiece(expr: string, lastEnd: nat) returns (r: Piece)
    requires lastEnd <= |expr|
    ensures r == NextPiece(expr, lastEnd)
  {
    hide NextSign, WildStart, NameEnd, WildEnd;
    var atIdx := FindSign(expr, lastEnd);
    if atIdx == |expr| {
      return Rest;
    }
    var preStart := FindWildStart(expr, atIdx);
    var nameEnd := FindNameEnd(expr, atIdx + 1);
    var wcEnd := FindWildEnd(expr, nameEnd);
    if nameEnd == atIdx + 1 || (preStart == atIdx && wcEnd == nameEnd) {
      return Copied(atIdx + 1);
    }
    if preStart < lastEnd {
      return Crossed;
    }
    var prefixWild := if preStart < atIdx then "'" + expr[preStart..atIdx] + "', " else "";
    var suffixWild := if nameEnd < wcEnd then ", '" + expr[nameEnd..wcEnd] + "'" else "";
    return Concat(preStart, wcEnd, "CONCAT(" + prefixWild + expr[atIdx..nameEnd] + suffixWild + ")");
  }

  /** No wildcard touches a parameter. */
  predicate WildcardFree(e: string) {
    forall i :: 0 < i < |e| ==> (e[i] == '@' ==> !IsWild(e[i - 1])) && (e[i] == '%' ==> !IsNameChar(e[i - 1]))
  }

  lemma {:induction false} NameIsNotFollowedByWild(e: string, i: nat)
    requires WildcardFree(e) && 0 < i <= |e|
    ensures NameEnd(e, i) > i ==> WildEnd(e, NameEnd(e, i)) == NameEnd(e, i)
    decreases |e| - i
  {
    if i < |e| && IsNameChar(e[i]) {
      NameIsNotFollowedByWild(e, i + 1);
    }
  }

  lemma ConvertStep(e: string, lastEnd: nat)
    requires WildcardFree(e) && lastEnd <= |e|
    ensures NextPiece(e, lastEnd).Rest? || NextPiece(e, lastEnd).Copied?
  {
    hide NameEnd, WildEnd, NextSign;
    var at := NextSign(e, lastEnd);
    if at < |e| {
      NameIsNotFollowedByWild(e, at + 1);
    }
  }

  lemma Slices(e: string, i: nat, j: nat)
    requires i <= j <= |e|
    ensures e[..i] + e[i..j] == e[..j] && e[..i] + e[i..] == e
  {}

  lemma {:induction false} ConvertKeeps(e: string, lastEnd: nat)
    requires WildcardFree(e) && lastEnd <= |e|
    ensures ConvertFrom(e, lastEnd, e[..lastEnd]) == Some(e)
    decreases |e| - lastEnd
  {
    hide NextPiece, WildcardFree;
    ConvertStep(e, lastEnd);
    Slices(e, lastEnd, lastEnd);
    if NextPiece(e, lastEnd).Copied? {
      Slices(e, lastEnd, NextPiece(e, lastEnd).to);
      ConvertKeeps(e, NextPiece(e, lastEnd).to);
    }
  }

  /** An expression without wildcards is printed as it is. */
  lemma WithoutWildcardsNothingChanges(e: string)
    requires WildcardFree(e)
    ensures Converted(e) == Some(e)
  {
    ConvertKeeps(e, 0);
    assert e[..0] == "";
  }

  // ----- Printing -----

  function Join(parts: seq<string>, separator: string): string {
    if parts == [] then "" else if |parts| == 1 then parts[0]
    else parts[0] + separator + Join(parts[1..], separator)
  }

  datatype Printed = Sql(text: string) | NoCondition | Panic

  /** The SQL of a condition: the expression, or the parts joined by the operator in parentheses. */
  function Rendered(c: Condition): Printed {
    if c.expr != "" then
      match Converted(c.expr)
      case None => Panic
      case Some(text) => Sql(text)
    else if c.conditions == [] then NoCondition
    else
      match RenderedParts(c.conditions)
      case Failed(error) => error
      case Parts(parts) =>
        Sql("(" + Join(parts, " " + (if c.operator == "" then "AND" else c.operator) + " ") + ")")
  }

  datatype PrintedParts = Parts(parts: seq<string>) | Failed(error: Printed)

  function RenderedParts(conditions: seq<Condition>): (r: PrintedParts)
    ensures r.Parts? ==> |r.parts| == |conditions|
    ensures r.Failed? ==> !r.error.Sql?
  {
    if conditions == [] then Parts([])
    else match Rendered(conditions[0])
      case Sql(text) =>
        (match RenderedParts(conditions[1..])
         case Failed(error) => Failed(error)
         case Parts(parts) => Parts([text] + parts))
      case error => Failed(error)
  }

  /** The first part that cannot be printed decides. */
  lemma {:induction false} FirstFailureDecides(conditions: seq<Condition>, i: nat)
    requires i < |conditions| && !Rendered(conditions[i]).Sql?
    requires forall k :: 0 <= k < i ==> Rendered(conditions[k]).Sql?
    ensures RenderedParts(conditions) == Failed(Rendered(conditions[i]))
    decreases i
  {
    hide Rendered;
    if i > 0 {
      assert forall k :: 0 <= k < i - 1 ==> conditions[1..][k] == conditions[k + 1];
      FirstFailureDecides(conditions[1..], i - 1);
    }
  }

  /** A group without conditions is an error, one with a part that cannot be printed fails as the first of those does,
      and one without an operator is joined by AND. */
  lemma GroupsArePrinted(c: Condition, i: nat)
    requires c.expr == ""
    ensures c.conditions == [] ==> Rendered(c) == NoCondition
    ensures
      (i < |c.conditions| && !Rendered(c.conditions[i]).Sql? && forall k :: 0 <= k < i ==> Rendered(c.conditions[k]).Sql?)
      ==> Rendered(c) == Rendered(c.conditions[i])
    ensures c.operator == "" ==> Rendered(c) == Rendered(c.(operator := "AND"))
  {
    hide Converted, Join;
    if i < |c.conditions| && !Rendered(c.conditions[i]).Sql?
       && forall k :: 0 <= k < i ==> Rendered(c.conditions[k]).Sql? {
      FirstFailureDecides(c.conditions, i);
    }
  }

  /** The parts printed so far, and what becomes of the rest. */
  function Prefixed(parts: seq<string>, r: PrintedParts): PrintedParts {
    if r.Parts? then Parts(parts + r.parts) else r
  }

  method GenerateWhereSQL(condition: Condition) returns (r: Printed)
    ensures r == Rendered(condition)
  {
    hide Converted;
    if condition.expr != "" {
      var converted := ConvertLikeWildcards(condition.expr);
      return if converted.Some? then Sql(converted.value) else Panic;
    }
    if condition.conditions == [] {
      return NoCondition;
    }
    var conditions: seq<string>, i := [], 0;
    while i < |condition.conditions|
      invariant 0 <= i <= |condition.conditions|
      invariant RenderedParts(condition.conditions) == Prefixed(conditions, RenderedParts(condition.conditions[i..]))
    {
      var where := GenerateWhereSQL(condition.conditions[i]);
      if !where.Sql? {
        return where;
      }
      assert condition.conditions[i..][1..] == condition.conditions[i + 1..];
      assert forall ps: seq<string> :: conditions + ([where.text] + ps) == (conditions + [where.text]) + ps;
      conditions := conditions + [where.text];
      i := i + 1;
    }
    assert conditions + [] == conditions;
    return Sql("(" + Join(conditions, " " + (if condition.operator == "" then "AND" else condition.operator) + " ") + ")");
  }
}
