/** What the rewriting of wildcards does to an expression, and when it panics
    (`tool/cmd/gen-go-db/conditonwhere/fieldmask.go`). */
module WhereWildcards {
  import opened Options
  import opened WherePrinter
  import opened WhereScan

  // ----- When the slice bounds cross -----

  /** A parameter that wildcards touch: it stands at `i`, and its name is not empty. */
  predicate Rewritten(e: string, i: nat) {
    && i < |e| && e[i] == '@' && NameEnd(e, i + 1) > i + 1
    && ((i > 0 && IsWild(e[i - 1])) || (NameEnd(e, i + 1) < |e| && IsWild(e[NameEnd(e, i + 1)])))
  }

  /** Behind the name and the wildcards of the parameter at `i`. */
  function EndOf(e: string, i: nat): (r: nat)
    requires i < |e|
    ensures i < r <= |e|
  {
    WildEnd(e, NameEnd(e, i + 1))
  }

  /** Another parameter begins at `j`, directly behind a wildcard. */
  predicate BehindWild(e: string, j: nat) {
    0 < j && j + 1 < |e| && IsWild(e[j - 1]) && e[j] == '@' && IsNameChar(e[j + 1])
  }

  /** A rewritten parameter ends with a wildcard, its own underscore among them, and another parameter follows
      directly. */
  predicate Collides(e: string, i: nat) {
    Rewritten(e, i) && BehindWild(e, EndOf(e, i))
  }

  lemma {:induction false} NoSignBefore(e: string, i: nat)
    requires i <= |e|
    ensures forall k :: i <= k < NextSign(e, i) ==> e[k] != '@'
    decreases |e| - i
  {
    if i < |e| && e[i] != '@' {
      NoSignBefore(e, i + 1);
    }
  }

  lemma {:induction false} WildStartBelow(e: string, i: nat, low: nat)
    requires low <= i <= |e| && WildStart(e, i) < low
    ensures low > 0 && forall k :: low - 1 <= k < i ==> IsWild(e[k])
    decreases i
  {
    if i > low {
      WildStartBelow(e, i - 1, low);
    }
  }

  lemma {:induction false} NamesAndWilds(e: string, i: nat)
    requires i <= |e|
    ensures forall k :: i <= k < NameEnd(e, i) ==> IsNameChar(e[k])
    ensures forall k :: i <= k < WildEnd(e, i) ==> IsWild(e[k])
    ensures WildEnd(e, i) < |e| ==> !IsWild(e[WildEnd(e, i)])
    ensures NameEnd(e, i) < |e| ==> !IsNameChar(e[NameEnd(e, i)])
    decreases |e| - i
  {
    if i < |e| {
      NamesAndWilds(e, i + 1);
    }
  }

  lemma SignAlone(e: string, i: nat)
    requires i < |e|
    ensures forall k :: i < k < EndOf(e, i) ==> e[k] != '@'
    ensures EndOf(e, i) < |e| ==> !IsWild(e[EndOf(e, i)])
  {
    NamesAndWilds(e, i + 1);
    NamesAndWilds(e, NameEnd(e, i + 1));
  }

  /** A round that does not panic. */
  lemma RoundGoesOn(e: string, lastEnd: nat)
    requires lastEnd <= |e|
    requires lastEnd > 0 && lastEnd < |e| && IsWild(e[lastEnd - 1]) ==> !IsWild(e[lastEnd])
    ensures var at := NextSign(e, lastEnd);
      match NextPiece(e, lastEnd)
      case Rest => at == |e| && !BehindWild(e, lastEnd)
      case Copied(to) => at < |e| && to == at + 1 && !Rewritten(e, at) && !BehindWild(e, lastEnd)
      case Concat(_, to, _) => at < |e| && to == EndOf(e, at) && Rewritten(e, at) && !BehindWild(e, lastEnd)
      case Crossed => BehindWild(e, lastEnd)
  {
    var at := NextSign(e, lastEnd);
    NoSignBefore(e, lastEnd);
    if at < |e| {
      NamesAndWilds(e, at + 1);
      NamesAndWilds(e, NameEnd(e, at + 1));
      if WildStart(e, at) < lastEnd {
        WildStartBelow(e, at, lastEnd);
        assert at == lastEnd;
      }
    }
  }

  /** Somewhere from `n` on parameters collide. */
  ghost predicate CollidesFrom(e: string, n: nat) {
    exists i: nat :: n <= i < |e| && Collides(e, i)
  }

  lemma CollidesLater(e: string, i: nat, j: nat)
    requires i <= j <= |e| && forall k :: i <= k < j ==> !Collides(e, k)
    ensures CollidesFrom(e, i) <==> CollidesFrom(e, j)
  {
    hide Collides;
  }

  lemma CollidesHereOrLater(e: string, i: nat)
    requires i < |e|
    ensures CollidesFrom(e, i) <==> Collides(e, i) || CollidesFrom(e, i + 1)
  {
    hide Collides;
  }

  lemma NothingLater(e: string)
    ensures !CollidesFrom(e, |e|)
  {}

  lemma CollidesMeans(e: string, i: nat)
    ensures Collides(e, i) <==> Rewritten(e, i) && BehindWild(e, EndOf(e, i))
  {}

  lemma {:induction false} PanicsFrom(e: string, lastEnd: nat, out: string)
    requires lastEnd <= |e|
    requires lastEnd > 0 && lastEnd < |e| && IsWild(e[lastEnd - 1]) ==> !IsWild(e[lastEnd])
    ensures ConvertFrom(e, lastEnd, out).None? <==> BehindWild(e, lastEnd) || CollidesFrom(e, lastEnd)
    decreases |e| - lastEnd
  {
    hide NextPiece, NextSign, NameEnd, WildEnd, BehindWild, Rewritten, EndOf, Collides, CollidesFrom;
    RoundGoesOn(e, lastEnd);
    NoSignBefore(e, lastEnd);
    var at := NextSign(e, lastEnd);
    NotCollidingBefore(e, lastEnd, at);
    CollidesLater(e, lastEnd, at);
    match NextPiece(e, lastEnd)
    case Rest =>
      NothingLater(e);
    case Copied(to) =>
      NotBehindSign(e, at);
      CollidesMeans(e, at);
      CollidesHereOrLater(e, at);
      PanicsFrom(e, to, out + e[lastEnd..to]);
    case Concat(from, to, text) =>
      SignAlone(e, at);
      CollidesMeans(e, at);
      CollidesHereOrLater(e, at);
      NotCollidingBefore(e, at + 1, to);
      CollidesLater(e, at + 1, to);
      PanicsFrom(e, to, out + e[lastEnd..from] + text);
    case Crossed =>
  }

  lemma NotCollidingBefore(e: string, i: nat, j: nat)
    requires i <= j <= |e| && forall k :: i <= k < j ==> e[k] != '@'
    ensures forall k :: i <= k < j ==> !Collides(e, k)
  {
    hide NameEnd, WildEnd;
  }

  lemma NotBehindSign(e: string, at: nat)
    requires at < |e| && e[at] == '@'
    ensures !BehindWild(e, at + 1) && !IsWild(e[at])
  {}

  /** Rewriting an expression panics if and only if a parameter that wildcards touch ends with a wildcard and
      another parameter follows directly. */
  lemma PanicsExactlyOnCollisions(e: string)
    ensures Converted(e) == None <==> CollidesFrom(e, 0)
  {
    hide CollidesFrom;
    PanicsFrom(e, 0, "");
    assert !BehindWild(e, 0);
  }

  /** For example. */
  lemma TwoParametersAroundOneWildcard()
    ensures Converted("@a%@b") == None
  {
    var e := "@a%@b";
    assert NameEnd(e, 1) == 2 by { assert NameEnd(e, 2) == 2; }
    assert WildEnd(e, 2) == 3 by { assert WildEnd(e, 3) == 3; }
    assert Collides(e, 0);
    PanicsExactlyOnCollisions(e);
  }

  /** Without wildcards at parameters there is no collision. */
  lemma WildcardFreeNeverCollides(e: string)
    requires WildcardFree(e)
    ensures !CollidesFrom(e, 0)
  {
    forall i: nat | 0 <= i < |e| ensures !Collides(e, i) {
      if e[i] == '@' {
        NamesAndWilds(e, i + 1);
      }
    }
  }

  // ----- What one parameter becomes -----

  predicate AllWild(s: string) {
    forall k :: 0 <= k < |s| ==> s[k] in "%_"
  }

  predicate AllName(s: string) {
    forall k :: 0 <= k < |s| ==> IsNameChar(s[k])
  }

  lemma {:induction false} SignAt(e: string, i: nat, at: nat)
    requires i <= at <= |e| && (forall k :: i <= k < at ==> e[k] != '@') && (at < |e| ==> e[at] == '@')
    ensures NextSign(e, i) == at
    decreases at - i
  {
    if i < at {
      SignAt(e, i + 1, at);
    }
  }

  lemma {:induction false} WildStartIs(e: string, i: nat, start: nat)
    requires start <= i <= |e| && (forall k :: start <= k < i ==> IsWild(e[k])) && (start > 0 ==> !IsWild(e[start - 1]))
    ensures WildStart(e, i) == start
    decreases i
  {
    if start < i {
      WildStartIs(e, i - 1, start);
    }
  }

  lemma {:induction false} NameEndIs(e: string, i: nat, end: nat)
    requires i <= end <= |e| && (forall k :: i <= k < end ==> IsNameChar(e[k])) && (end < |e| ==> !IsNameChar(e[end]))
    ensures NameEnd(e, i) == end
    decreases end - i
  {
    if i < end {
      NameEndIs(e, i + 1, end);
    }
  }

  lemma {:induction false} WildEndIs(e: string, i: nat, end: nat)
    requires i <= end <= |e| && (forall k :: i <= k < end ==> IsWild(e[k])) && (end < |e| ==> !IsWild(e[end]))
    ensures WildEnd(e, i) == end
    decreases end - i
  {
    if i < end {
      WildEndIs(e, i + 1, end);
    }
  }

  /** A named parameter of an expression: what stands before it, the wildcards before its sign, its name, and the
      wildcards behind it. */
  datatype Segment = Segment(before: string, left: string, name: string, right: string)

  function ParameterText(p: Segment): string {
    p.left + ("@" + (p.name + p.right))
  }

  /** The expression with these parameters, and `after` behind the last one. */
  function Written(ps: seq<Segment>, after: string): string {
    if ps == [] then after else ps[0].before + (ParameterText(ps[0]) + Written(ps[1..], after))
  }

  /** `rest` begins with a character that goes on neither with the wildcards before it nor, without any, with the
      name. */
  predicate Ends(right: string, rest: string) {
    rest != "" ==> rest[0] !in "%_" && (right == "" ==> !IsNameChar(rest[0]))
  }

  /** A parameter in front of `rest`, its name and wildcards as long as they can be. `wild`: what stands before all
      this ends with a wildcard, so that the parameter must not touch it. */
  predicate IsSegment(p: Segment, rest: string, wild: bool) {
    && '@' !in p.before && (if p.before == "" then !wild else p.before[|p.before| - 1] !in "%_")
    && AllWild(p.left) && p.name != "" && AllName(p.name) && AllWild(p.right)
    && (p.right != "" ==> !IsNameChar(p.right[0])) && Ends(p.right, rest)
  }

  predicate EndsWild(p: Segment)
    requires p.name != ""
  {
    p.right != "" || p.name[|p.name| - 1] == '_'
  }

  predicate Segments(ps: seq<Segment>, after: string, wild: bool) {
    if ps == [] then '@' !in after
    else IsSegment(ps[0], Written(ps[1..], after), wild) && Segments(ps[1..], after, EndsWild(ps[0]))
  }

  /** A parameter that wildcards touch becomes a CONCAT of the wildcards before it as a string, of itself, and of
      the wildcards behind it. */
  function Becomes(p: Segment): string {
    if p.left == "" && p.right == "" then "@" + p.name
    else if p.right == "" then "CONCAT('" + p.left + "', @" + p.name + ")"
    else if p.left == "" then "CONCAT(@" + p.name + ", '" + p.right + "')"
    else "CONCAT('" + p.left + "', @" + p.name + ", '" + p.right + "')"
  }

  function RewrittenText(ps: seq<Segment>, after: string): string {
    if ps == [] then after else ps[0].before + (Becomes(ps[0]) + RewrittenText(ps[1..], after))
  }

  /** The characters of a name, by their ASCII codes: digits, capitals, the underscore, and small letters. */
  lemma NameCharacters(c: char)
    ensures IsNameChar(c) <==>
      48 <= c as int < 58 || 65 <= c as int < 91 || c as int == 95 || 97 <= c as int < 123
  {}

  lemma WildAndName(c: char)
    ensures IsWild(c) <==> c in "%_"
    ensures c == '@' || c == '%' ==> !IsNameChar(c)
    ensures c == '@' ==> !IsWild(c)
  {}

  lemma Ranges(e: string, i: nat, w: string)
    requires Reads(e, i, w)
    ensures i + |w| <= |e| && forall k :: i <= k < i + |w| ==> e[k] == w[k - i]
    ensures w != "" ==> e[i] == w[0] && e[i + |w| - 1] == w[|w| - 1]
  {
    forall k | i <= k < i + |w| ensures e[k] == w[k - i] {
      assert e[i + (k - i)] == w[k - i];
    }
  }

  /** Where the parts of the first parameter stand: the wildcards before it, its sign, its name, the wildcards
      behind it, and their end. */
  datatype Spots = Spots(left: nat, sign: nat, name: nat, right: nat, end: nat)

  function SpotsOf(n: nat, p: Segment): Spots {
    var sign := n + |p.before| + |p.left|;
    Spots(n + |p.before|, sign, sign + 1, sign + 1 + |p.name|, sign + 1 + |p.name| + |p.right|)
  }

  lemma Places(e: string, n: nat, p: Segment, rest: string)
    requires Reads(e, n, p.before + (ParameterText(p) + rest))
    ensures var at := SpotsOf(n, p);
      && Reads(e, n, p.before) && Reads(e, at.left, p.left) && Reads(e, at.sign, "@") && Reads(e, at.name, p.name)
      && Reads(e, at.right, p.right) && Reads(e, at.end, rest)
      && |p.before + (ParameterText(p) + rest)| == at.end - n + |rest|
  {
    hide Reads;
    Nested(p, rest);
    ReadsParts(e, n, p.before, ParameterText(p) + rest);
    ReadsParts(e, n + |p.before|, p.left, "@" + (p.name + (p.right + rest)));
    var sign := n + |p.before| + |p.left|;
    ReadsParts(e, sign, "@", p.name + (p.right + rest));
    ReadsParts(e, sign + 1, p.name, p.right + rest);
    ReadsParts(e, sign + 1 + |p.name|, p.right, rest);
  }

  lemma Nested(p: Segment, rest: string)
    ensures ParameterText(p) + rest == p.left + ("@" + (p.name + (p.right + rest)))
    ensures |p.before + (ParameterText(p) + rest)| == |p.before| + |p.left| + 1 + |p.name| + |p.right| + |rest|
  {}

  lemma SignThere(e: string, n: nat, before: string, left: string)
    requires Reads(e, n, before) && Reads(e, n + |before|, left) && Reads(e, n + |before| + |left|, "@")
    requires '@' !in before && AllWild(left)
    ensures NextSign(e, n) == n + |before| + |left| < |e|
  {
    Ranges(e, n, before);
    Ranges(e, n + |before|, left);
    Ranges(e, n + |before| + |left|, "@");
    WildsAreNoSigns(left);
    hide Reads, NextSign, AllWild;
    SignAt(e, n, n + |before| + |left|);
  }

  lemma WildsAreNoSigns(s: string)
    requires AllWild(s)
    ensures '@' !in s
  {}

  lemma WildStartThere(e: string, n: nat, before: string, left: string, wild: bool)
    requires Reads(e, n, before) && Reads(e, n + |before|, left) && AllWild(left)
    requires if before == "" then !wild else before[|before| - 1] !in "%_"
    requires n > 0 ==> wild == IsWild(e[n - 1])
    ensures WildStart(e, n + |before| + |left|) == n + |before|
  {
    Ranges(e, n, before);
    Ranges(e, n + |before|, left);
    hide Reads, WildStart;
    WildStartIs(e, n + |before| + |left|, n + |before|);
  }

  lemma NameEndThere(e: string, i: nat, name: string, right: string, rest: string)
    requires Reads(e, i, name) && Reads(e, i + |name|, right) && Reads(e, i + |name| + |right|, rest)
    requires |e| == i + |name| + |right| + |rest| && AllName(name)
    requires (right != "" ==> !IsNameChar(right[0])) && Ends(right, rest)
    ensures NameEnd(e, i) == i + |name|
  {
    Ranges(e, i, name);
    Ranges(e, i + |name|, right);
    Ranges(e, i + |name| + |right|, rest);
    hide Reads, NameEnd;
    NameEndIs(e, i, i + |name|);
  }

  lemma WildEndThere(e: string, i: nat, right: string, rest: string)
    requires Reads(e, i, right) && Reads(e, i + |right|, rest) && |e| == i + |right| + |rest|
    requires AllWild(right) && Ends(right, rest)
    ensures WildEnd(e, i) == i + |right|
  {
    Ranges(e, i, right);
    Ranges(e, i + |right|, rest);
    hide Reads, WildEnd;
    WildEndIs(e, i, i + |right|);
  }

  lemma SegmentMeans(p: Segment, rest: string, wild: bool)
    requires IsSegment(p, rest, wild)
    ensures '@' !in p.before && (if p.before == "" then !wild else p.before[|p.before| - 1] !in "%_")
    ensures AllWild(p.left) && p.name != "" && AllName(p.name) && AllWild(p.right)
    ensures (p.right != "" ==> !IsNameChar(p.right[0])) && Ends(p.right, rest)
  {
    hide AllWild, AllName, Ends;
  }

  lemma PieceIs(e: string, n: nat, at: Spots)
    requires n <= at.left <= at.sign && at.name == at.sign + 1 < at.right <= at.end <= |e|
    requires NextSign(e, n) == at.sign && WildStart(e, at.sign) == at.left
    requires NameEnd(e, at.name) == at.right && WildEnd(e, at.right) == at.end
    ensures NextPiece(e, n) ==
      if at.left == at.sign && at.right == at.end then Copied(at.name)
      else Concat(at.left, at.end, ConcatText(e[at.left..at.sign], e[at.sign..at.right], e[at.right..at.end]))
  {
    hide NextSign, WildStart, NameEnd, WildEnd, ConcatText;
  }

  lemma Slices(e: string, n: nat, p: Segment)
    requires var at := SpotsOf(n, p);
      Reads(e, at.left, p.left) && Reads(e, at.sign, "@") && Reads(e, at.name, p.name) && Reads(e, at.right, p.right)
    ensures var at := SpotsOf(n, p);
      && at.end <= |e|
      && e[at.left..at.sign] == p.left && e[at.sign..at.right] == "@" + p.name && e[at.right..at.end] == p.right
  {
    var at := SpotsOf(n, p);
    ReadsSlice(e, at.left, p.left);
    ReadsSlice(e, at.sign, "@");
    ReadsSlice(e, at.name, p.name);
    ReadsSlice(e, at.right, p.right);
    hide Reads;
    assert e[at.sign..at.right] == e[at.sign..at.name] + e[at.name..at.right];
  }

  /** The piece that the first parameter is. */
  lemma PieceOfSegment(e: string, n: nat, p: Segment, rest: string, wild: bool)
    requires Reads(e, n, p.before + (ParameterText(p) + rest)) && n + |p.before + (ParameterText(p) + rest)| == |e|
    requires IsSegment(p, rest, wild) && (n > 0 ==> wild == IsWild(e[n - 1]))
    ensures var at := SpotsOf(n, p);
      NextPiece(e, n) ==
        if p.left == "" && p.right == "" then Copied(at.name)
        else Concat(at.left, at.end, ConcatText(p.left, "@" + p.name, p.right))
  {
    hide Reads, NextPiece, NextSign, WildStart, NameEnd, WildEnd, ConcatText, ParameterText, Ends, AllWild, AllName,
         IsSegment, IsWild;
    var at := SpotsOf(n, p);
    Places(e, n, p, rest);
    SegmentMeans(p, rest, wild);
    SignThere(e, n, p.before, p.left);
    WildStartThere(e, n, p.before, p.left, wild);
    NameEndThere(e, at.name, p.name, p.right, rest);
    WildEndThere(e, at.right, p.right, rest);
    Slices(e, n, p);
    PieceIs(e, n, at);
  }

  lemma NoMorePieces(e: string, lastEnd: nat)
    requires lastEnd <= |e| && NextSign(e, lastEnd) == |e|
    ensures NextPiece(e, lastEnd) == Rest
  {}

  lemma ConcatOfBoth(l: string, n: string, r: string)
    ensures "CONCAT(" + ("'" + l + "', ") + ("@" + n) + (", '" + r + "'") + ")" == "CONCAT('" + l + "', @" + n + ", '" + r + "')"
  {}

  lemma ConcatOfLeft(l: string, n: string)
    ensures "CONCAT(" + ("'" + l + "', ") + ("@" + n) + "" + ")" == "CONCAT('" + l + "', @" + n + ")"
  {}

  lemma ConcatOfRight(n: string, r: string)
    ensures "CONCAT(" + "" + ("@" + n) + (", '" + r + "'") + ")" == "CONCAT(@" + n + ", '" + r + "')"
  {}

  lemma BecomesConcat(p: Segment)
    requires p.left != "" || p.right != ""
    ensures ConcatText(p.left, "@" + p.name, p.right) == Becomes(p)
  {
    if p.right == "" {
      ConcatOfLeft(p.left, p.name);
    } else if p.left == "" {
      ConcatOfRight(p.name, p.right);
    } else {
      ConcatOfBoth(p.left, p.name, p.right);
    }
  }

  // ----- All parameters of an expression -----

  /** A parameter that no wildcard touches is passed over up to its sign, so that its name comes before what
      follows. */
  function Merged(name: string, ps: seq<Segment>): seq<Segment> {
    if ps == [] then [] else [ps[0].(before := name + ps[0].before)] + ps[1..]
  }

  function MergedAfter(name: string, ps: seq<Segment>, after: string): string {
    if ps == [] then name + after else after
  }

  lemma Associates(a: string, b: string, c: string)
    ensures (a + b) + c == a + (b + c)
  {}

  lemma MergedIsSame(name: string, ps: seq<Segment>, after: string)
    ensures |Merged(name, ps)| == |ps|
    ensures Written(Merged(name, ps), MergedAfter(name, ps, after)) == name + Written(ps, after)
    ensures RewrittenText(Merged(name, ps), MergedAfter(name, ps, after)) == name + RewrittenText(ps, after)
  {
    hide ParameterText, Becomes;
    if ps != [] {
      var q := Merged(name, ps)[0];
      assert Merged(name, ps)[1..] == ps[1..];
      SameParameter(ps[0], q);
      Associates(name, ps[0].before, ParameterText(ps[0]) + Written(ps[1..], after));
      Associates(name, ps[0].before, Becomes(ps[0]) + RewrittenText(ps[1..], after));
    }
  }

  lemma SameParameter(p: Segment, q: Segment)
    requires q == p.(before := q.before)
    ensures ParameterText(p) == ParameterText(q) && Becomes(p) == Becomes(q)
  {}

  lemma MergedIsSegmented(name: string, ps: seq<Segment>, after: string)
    requires name != "" && '@' !in name && Segments(ps, after, name[|name| - 1] == '_') && '%' !in name
    ensures Segments(Merged(name, ps), MergedAfter(name, ps, after), false)
  {
    hide Written, Ends, AllWild, AllName;
    if ps != [] {
      var p, q := ps[0], Merged(name, ps)[0];
      assert Merged(name, ps)[1..] == ps[1..];
      assert q.before[|q.before| - 1] == if p.before == "" then name[|name| - 1] else p.before[|p.before| - 1];
    }
  }

  lemma NamesHoldNoSigns(s: string)
    requires AllName(s)
    ensures '@' !in s && '%' !in s
  {}

  lemma ConvertsRest(e: string, n: nat, out: string)
    requires n <= |e| && NextPiece(e, n) == Rest && (n == 0 ==> out == "")
    ensures ConvertFrom(e, n, out) == Some(out + e[n..])
  {
    hide NextPiece;
    assert "" + e[0..] == e;
  }

  lemma ConvertsConcat(e: string, n: nat, out: string, from: nat, to: nat, text: string)
    requires n <= |e| && NextPiece(e, n) == Concat(from, to, text)
    ensures n <= from <= to <= |e| && n < to && ConvertFrom(e, n, out) == ConvertFrom(e, to, out + e[n..from] + text)
  {
    hide NextPiece;
  }

  lemma ConvertsCopied(e: string, n: nat, out: string, to: nat)
    requires n <= |e| && NextPiece(e, n) == Copied(to)
    ensures n < to <= |e| && ConvertFrom(e, n, out) == ConvertFrom(e, to, out + e[n..to])
  {
    hide NextPiece;
  }

  lemma SegmentsStep(ps: seq<Segment>, after: string, wild: bool)
    requires ps != [] && Segments(ps, after, wild)
    ensures var p := ps[0];
      && IsSegment(p, Written(ps[1..], after), wild) && p.name != "" && '@' !in p.name && '%' !in p.name
      && (p.right != "" ==> p.right[|p.right| - 1] in "%_")
      && Segments(ps[1..], after, EndsWild(p))
    ensures Written(ps, after) == ps[0].before + (ParameterText(ps[0]) + Written(ps[1..], after))
    ensures RewrittenText(ps, after) == ps[0].before + (Becomes(ps[0]) + RewrittenText(ps[1..], after))
  {
    NamesHoldNoSigns(ps[0].name);
    hide Written, RewrittenText, ParameterText, Becomes, Ends;
  }

  lemma NoSegments(after: string, wild: bool)
    requires Segments([], after, wild)
    ensures Written([], after) == after && RewrittenText([], after) == after && '@' !in after
  {}

  lemma Put(out: string, before: string, text: string, rest: string)
    ensures out + before + text + rest == out + (before + (text + rest))
    ensures out + (before + text) + rest == out + (before + (text + rest))
  {}

  /** At `n` the parameters begin that are still to be rewritten. */
  predicate Begins(e: string, n: nat, ps: seq<Segment>, after: string, wild: bool) {
    && Reads(e, n, Written(ps, after)) && n + |Written(ps, after)| == |e| && Segments(ps, after, wild)
    && (n > 0 ==> wild == IsWild(e[n - 1]))
  }

  lemma BeginsMeans(e: string, n: nat, ps: seq<Segment>, after: string, wild: bool)
    ensures Begins(e, n, ps, after, wild) <==>
      && Reads(e, n, Written(ps, after)) && n + |Written(ps, after)| == |e| && Segments(ps, after, wild)
      && (n > 0 ==> wild == IsWild(e[n - 1]))
    ensures Begins(e, n, ps, after, wild) ==> n <= |e|
  {
    hide Reads, Written, Segments, IsWild;
  }

  lemma {:induction false} RewritesFrom(e: string, n: nat, out: string, ps: seq<Segment>, after: string, wild: bool)
    requires n <= |e| && Begins(e, n, ps, after, wild) && (n == 0 ==> out == "")
    ensures ConvertFrom(e, n, out) == Some(out + RewrittenText(ps, after))
    decreases |ps|, 1
  {
    hide *;
    BeginsMeans(e, n, ps, after, wild);
    if ps == [] {
      NoSegments(after, wild);
      NothingRewritten(e, n, out, after);
    } else if ps[0].left == "" && ps[0].right == "" {
      CopiesSegment(e, n, out, ps, after, wild);
    } else {
      RewritesSegment(e, n, out, ps, after, wild);
    }
  }

  lemma NothingRewritten(e: string, n: nat, out: string, after: string)
    requires Reads(e, n, after) && n + |after| == |e| && '@' !in after && (n == 0 ==> out == "")
    ensures ConvertFrom(e, n, out) == Some(out + after)
  {
    hide ConvertFrom, NextSign, NextPiece;
    Ranges(e, n, after);
    SignAt(e, n, |e|);
    NoMorePieces(e, n);
    ConvertsRest(e, n, out);
    ReadsSlice(e, n, after);
    assert e[n..n + |after|] == e[n..];
  }

  lemma BeginsBehind(e: string, n: nat, ps: seq<Segment>, after: string, wild: bool)
    requires ps != [] && Begins(e, n, ps, after, wild)
    ensures SpotsOf(n, ps[0]).end <= |e| && Begins(e, SpotsOf(n, ps[0]).end, ps[1..], after, EndsWild(ps[0]))
    ensures ps[0].name != "" && e[n..SpotsOf(n, ps[0]).left] == ps[0].before && n <= SpotsOf(n, ps[0]).left <= |e|
  {
    hide Reads, Written, Segments, IsWild, EndsWild, Begins, ParameterText;
    BeginsMeans(e, n, ps, after, wild);
    SegmentsStep(ps, after, wild);
    var p, at := ps[0], SpotsOf(n, ps[0]);
    Places(e, n, p, Written(ps[1..], after));
    EndsWithWild(e, at.name, p);
    BeginsMeans(e, at.end, ps[1..], after, EndsWild(p));
    ReadsSlice(e, n, p.before);
    ReadsLength(e, n, p.before);
    ReadsLength(e, at.end, Written(ps[1..], after));
  }

  lemma ReadsLength(e: string, i: nat, w: string)
    requires Reads(e, i, w)
    ensures i + |w| <= |e|
  {}

  lemma EndsWithWild(e: string, i: nat, p: Segment)
    requires Reads(e, i, p.name) && Reads(e, i + |p.name|, p.right)
    requires p.name != "" && '%' !in p.name && (p.right != "" ==> p.right[|p.right| - 1] in "%_")
    ensures i + |p.name| + |p.right| <= |e| && EndsWild(p) == IsWild(e[i + |p.name| + |p.right| - 1])
  {
    Ranges(e, i, p.name);
    Ranges(e, i + |p.name|, p.right);
    hide Reads;
  }

  lemma {:induction false} RewritesSegment(e: string, n: nat, out: string, ps: seq<Segment>, after: string, wild: bool)
    requires ps != [] && n <= |e| && Begins(e, n, ps, after, wild) && (n == 0 ==> out == "")
    requires ps[0].left != "" || ps[0].right != ""
    ensures ConvertFrom(e, n, out) == Some(out + RewrittenText(ps, after))
    decreases |ps|, 0
  {
    hide *;
    var p, at := ps[0], SpotsOf(n, ps[0]);
    BeginsMeans(e, n, ps, after, wild);
    SegmentsStep(ps, after, wild);
    PieceOfSegment(e, n, p, Written(ps[1..], after), wild);
    BecomesConcat(p);
    BeginsBehind(e, n, ps, after, wild);
    ConvertsConcat(e, n, out, at.left, at.end, Becomes(p));
    RewritesFrom(e, at.end, out + p.before + Becomes(p), ps[1..], after, EndsWild(p));
    Put(out, p.before, Becomes(p), RewrittenText(ps[1..], after));
  }

  /** The name of a parameter that no wildcard touches goes before what follows it. */
  lemma BeginsWithName(e: string, n: nat, ps: seq<Segment>, after: string, wild: bool)
    requires ps != [] && Begins(e, n, ps, after, wild) && ps[0].left == "" && ps[0].right == ""
    ensures var p, at := ps[0], SpotsOf(n, ps[0]);
      && n <= at.name <= |e| && e[n..at.name] == p.before + "@"
      && Begins(e, at.name, Merged(p.name, ps[1..]), MergedAfter(p.name, ps[1..], after), false)
  {
    hide *;
    var p, at, rest := ps[0], SpotsOf(n, ps[0]), Written(ps[1..], after);
    BeginsMeans(e, n, ps, after, wild);
    SegmentsStep(ps, after, wild);
    UpToSign(e, n, p, rest);
    EndsWithName(p);
    MergedIsSame(p.name, ps[1..], after);
    MergedIsSegmented(p.name, ps[1..], after);
    WildAndName('@');
    BeginsMeans(e, at.name, Merged(p.name, ps[1..]), MergedAfter(p.name, ps[1..], after), false);
  }

  lemma UpToSign(e: string, n: nat, p: Segment, rest: string)
    requires p.left == "" && p.right == "" && Reads(e, n, p.before + (ParameterText(p) + rest))
    requires n + |p.before + (ParameterText(p) + rest)| == |e|
    ensures SpotsOf(n, p).name == n + |p.before| + 1 <= |e| && e[n..SpotsOf(n, p).name] == p.before + "@"
    ensures e[SpotsOf(n, p).name - 1] == '@'
    ensures Reads(e, SpotsOf(n, p).name, p.name + rest) && SpotsOf(n, p).name + |p.name + rest| == |e|
  {
    hide Reads;
    SignBeforeName(p, rest);
    ReadsParts(e, n, p.before + "@", p.name + rest);
    ReadsSlice(e, n, p.before + "@");
    Ranges(e, n, p.before + "@");
  }

  lemma SignBeforeName(p: Segment, rest: string)
    requires p.left == "" && p.right == ""
    ensures p.before + (ParameterText(p) + rest) == (p.before + "@") + (p.name + rest)
    ensures (p.before + "@")[|p.before|] == '@'
  {}

  lemma {:induction false} CopiesSegment(e: string, n: nat, out: string, ps: seq<Segment>, after: string, wild: bool)
    requires ps != [] && n <= |e| && Begins(e, n, ps, after, wild) && (n == 0 ==> out == "")
    requires ps[0].left == "" && ps[0].right == ""
    ensures ConvertFrom(e, n, out) == Some(out + RewrittenText(ps, after))
    decreases |ps|, 0
  {
    hide *;
    var p, at := ps[0], SpotsOf(n, ps[0]);
    BeginsMeans(e, n, ps, after, wild);
    SegmentsStep(ps, after, wild);
    PieceOfSegment(e, n, p, Written(ps[1..], after), wild);
    ConvertsCopied(e, n, out, at.name);
    BeginsWithName(e, n, ps, after, wild);
    MergedIsSame(p.name, ps[1..], after);
    RewritesFrom(e, at.name, out + (p.before + "@"), Merged(p.name, ps[1..]), MergedAfter(p.name, ps[1..], after), false);
    PutName(out, p, RewrittenText(ps[1..], after));
  }

  lemma EndsWithName(p: Segment)
    requires p.right == "" && p.name != ""
    ensures EndsWild(p) == (p.name[|p.name| - 1] == '_')
  {}

  lemma PutName(out: string, p: Segment, rest: string)
    requires p.left == "" && p.right == ""
    ensures out + (p.before + "@") + (p.name + rest) == out + (p.before + (Becomes(p) + rest))
  {
    assert (p.before + "@") + (p.name + rest) == p.before + (("@" + p.name) + rest);
  }

  /** Every parameter that wildcards touch becomes a CONCAT of the wildcards before it as a string, of itself, and of
      the wildcards behind it; everything else is kept. */
  lemma ParametersAreConcatenated(ps: seq<Segment>, after: string)
    requires Segments(ps, after, false)
    ensures Converted(Written(ps, after)) == Some(RewrittenText(ps, after))
  {
    hide ConvertFrom, Written, RewrittenText, Segments;
    RewritesFrom(Written(ps, after), 0, "", ps, after, false);
    assert "" + RewrittenText(ps, after) == RewrittenText(ps, after);
  }
}
