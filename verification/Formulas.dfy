/** Formulas over named predicates in three-valued logic, and which two predicates an AND and which an OR brings
    together. */
module Formulas {

  // ----- Three-valued logic -----

  datatype Truth = False | Unknown | True

  function Conjunction(a: Truth, b: Truth): Truth {
    if a.False? || b.False? then False else if a.True? && b.True? then True else Unknown
  }

  function Disjunction(a: Truth, b: Truth): Truth {
    if a.True? || b.True? then True else if a.False? && b.False? then False else Unknown
  }

  // ----- Formulas -----

  datatype Formula<P> = Named(name: P) | Both(left: Formula<P>, right: Formula<P>) | Either(left: Formula<P>, right: Formula<P>)

  function Eval<P>(env: P -> Truth, f: Formula<P>): Truth {
    match f
    case Named(p) => env(p)
    case Both(l, r) => Conjunction(Eval(env, l), Eval(env, r))
    case Either(l, r) => Disjunction(Eval(env, l), Eval(env, r))
  }

  /** The predicates from left to right. */
  function Names<P>(f: Formula<P>): seq<P> {
    match f
    case Named(p) => [p]
    case Both(l, r) => Names(l) + Names(r)
    case Either(l, r) => Names(l) + Names(r)
  }

  predicate NoRepeats<P(==)>(s: seq<P>) {
    forall i, j :: 0 <= i < j < |s| ==> s[i] != s[j]
  }

  /** The truth with the predicates of a set true and all others false. */
  function Holding<P(==)>(s: set<P>): P -> Truth {
    (p: P) => if p in s then True else False
  }

  predicate Sat<P(==)>(s: set<P>, f: Formula<P>) {
    match f
    case Named(p) => p in s
    case Both(l, r) => Sat(s, l) && Sat(s, r)
    case Either(l, r) => Sat(s, l) || Sat(s, r)
  }

  lemma {:induction false} EvalHolding<P>(s: set<P>, f: Formula<P>)
    ensures Eval(Holding(s), f) == if Sat(s, f) then True else False
    decreases f
  {
    if !f.Named? {
      EvalHolding(s, f.left);
      EvalHolding(s, f.right);
    }
  }

  /** The operator where the ways to `a`, on the left, and to `b`, on the right, part. */
  predicate Gate<P(==)>(f: Formula<P>, and: bool, a: P, b: P) {
    match f
    case Named(_) => false
    case Both(l, r) => (and && a in Names(l) && b in Names(r)) || Gate(l, and, a, b) || Gate(r, and, a, b)
    case Either(l, r) => (!and && a in Names(l) && b in Names(r)) || Gate(l, and, a, b) || Gate(r, and, a, b)
  }

  lemma {:induction false} GateNames<P>(f: Formula<P>, and: bool, a: P, b: P)
    requires Gate(f, and, a, b)
    ensures a in Names(f) && b in Names(f)
    decreases f
  {
    if Gate(f.left, and, a, b) {
      GateNames(f.left, and, a, b);
    } else if Gate(f.right, and, a, b) {
      GateNames(f.right, and, a, b);
    }
  }

  lemma NoRepeatsParts<P>(s: seq<P>, t: seq<P>)
    requires NoRepeats(s + t)
    ensures NoRepeats(s) && NoRepeats(t) && forall x :: x in s ==> x !in t
  {
    var all := s + t;
    forall i, j | 0 <= i < j < |s| ensures s[i] != s[j] {
      assert all[i] == s[i] && all[j] == s[j];
    }
    forall i, j | 0 <= i < j < |t| ensures t[i] != t[j] {
      assert all[|s| + i] == t[i] && all[|s| + j] == t[j];
    }
    forall i, j | 0 <= i < |s| && 0 <= j < |t| ensures s[i] != t[j] {
      assert all[i] == s[i] && all[|s| + j] == t[j];
    }
  }

  /** Only its own predicates matter to a formula. */
  lemma {:induction false} SatLocal<P>(s: set<P>, t: set<P>, f: Formula<P>)
    requires forall x :: x in Names(f) ==> (x in s <==> x in t)
    ensures Sat(s, f) == Sat(t, f)
    decreases f
  {
    if !f.Named? {
      SatLocal(s, t, f.left);
      SatLocal(s, t, f.right);
    }
  }

  lemma {:induction false} SatConstant<P>(s: set<P>, f: Formula<P>)
    ensures (forall x :: x in Names(f) ==> x in s) ==> Sat(s, f)
    ensures (forall x :: x in Names(f) ==> x !in s) ==> !Sat(s, f)
    decreases f
  {
    if f.Named? {
      assert f.name in Names(f);
    } else {
      SatConstant(s, f.left);
      SatConstant(s, f.right);
    }
  }

  function NamesSet<P(==)>(f: Formula<P>): set<P> {
    set x | x in Names(f)
  }

  /** The set that makes `other` neutral beside an operand of `f`: true below an AND, false below an OR. */
  function Neutral<P(==)>(f: Formula<P>, other: Formula<P>): set<P> {
    if f.Both? then NamesSet(other) else {}
  }

  /** With the other side neutral, `f` is what the side `part` is. */
  lemma OnlyOneSide<P>(f: Formula<P>, part: Formula<P>, other: Formula<P>, s: set<P>)
    requires !f.Named? && ((part == f.left && other == f.right) || (part == f.right && other == f.left))
    requires forall x :: x in Names(part) ==> x !in Names(other)
    requires forall x :: x in s ==> x in Names(part)
    ensures Sat(s + Neutral(f, other), f) == Sat(s, part)
  {
    var t := s + Neutral(f, other);
    SatLocal(s, t, part);
    SatConstant(t, other);
  }

  /** Each predicate can be made to decide. */
  lemma {:induction false} Decides<P>(f: Formula<P>, a: P) returns (s: set<P>)
    requires a in Names(f) && NoRepeats(Names(f))
    ensures forall x :: x in s ==> x in Names(f)
    ensures a !in s && Sat(s + {a}, f) && !Sat(s, f)
    decreases f
  {
    if f.Named? {
      s := {};
    } else {
      NoRepeatsParts(Names(f.left), Names(f.right));
      var part, other := if a in Names(f.left) then f.left else f.right,
                         if a in Names(f.left) then f.right else f.left;
      var s' := Decides(part, a);
      OnlyOneSide(f, part, other, s');
      OnlyOneSide(f, part, other, s' + {a});
      s := s' + Neutral(f, other);
      assert s' + {a} + Neutral(f, other) == s + {a};
    }
  }

  /** Where two predicates meet at an AND, the formula can be made to say `a AND b`. */
  lemma {:induction false} MeetAtAnd<P>(f: Formula<P>, a: P, b: P) returns (s: set<P>)
    requires Gate(f, true, a, b) && NoRepeats(Names(f))
    ensures forall x :: x in s ==> x in Names(f)
    ensures Sat(s + {a, b}, f) && !Sat(s + {a}, f) && !Sat(s + {b}, f)
    decreases f
  {
    NoRepeatsParts(Names(f.left), Names(f.right));
    if Gate(f.left, true, a, b) || Gate(f.right, true, a, b) {
      var part, other := if Gate(f.left, true, a, b) then f.left else f.right,
                         if Gate(f.left, true, a, b) then f.right else f.left;
      GateNames(part, true, a, b);
      var s' := MeetAtAnd(part, a, b);
      OnlyOneSide(f, part, other, s' + {a, b});
      OnlyOneSide(f, part, other, s' + {a});
      OnlyOneSide(f, part, other, s' + {b});
      s := s' + Neutral(f, other);
      assert s' + {a, b} + Neutral(f, other) == s + {a, b};
      assert s' + {a} + Neutral(f, other) == s + {a};
      assert s' + {b} + Neutral(f, other) == s + {b};
    } else {
      var l := Decides(f.left, a);
      var r := Decides(f.right, b);
      s := l + r;
      SatLocal(l + {a}, s + {a, b}, f.left);
      SatLocal(r + {b}, s + {a, b}, f.right);
      SatLocal(r, s + {a}, f.right);
      SatLocal(l, s + {b}, f.left);
    }
  }

  /** Where they meet at an OR, it never does. */
  lemma {:induction false} MeetAtOr<P>(f: Formula<P>, a: P, b: P, s: set<P>)
    requires Gate(f, false, a, b) && NoRepeats(Names(f))
    requires Sat(s + {a, b}, f)
    ensures Sat(s + {a}, f) || Sat(s + {b}, f)
    decreases f
  {
    NoRepeatsParts(Names(f.left), Names(f.right));
    if Gate(f.left, false, a, b) || Gate(f.right, false, a, b) {
      var part, other := if Gate(f.left, false, a, b) then f.left else f.right,
                         if Gate(f.left, false, a, b) then f.right else f.left;
      GateNames(part, false, a, b);
      SatLocal(s + {a, b}, s + {a}, other);
      SatLocal(s + {a, b}, s + {b}, other);
      if Sat(s + {a, b}, part) {
        MeetAtOr(part, a, b, s);
      }
    } else {
      SatLocal(s + {a, b}, s + {a}, f.left);
      SatLocal(s + {a, b}, s + {b}, f.right);
    }
  }

  /** Two formulas over the same predicates, none of them repeated, in which the same two meet at an AND
      in one and at an OR in the other, differ for some truth of the predicates. */
  lemma MeetingsTellApart<P>(f: Formula<P>, g: Formula<P>, a: P, b: P) returns (s: set<P>)
    requires NoRepeats(Names(f)) && NoRepeats(Names(g)) && Gate(f, true, a, b) && Gate(g, false, a, b)
    ensures Eval(Holding(s), f) != Eval(Holding(s), g)
  {
    var t := MeetAtAnd(f, a, b);
    if !Sat(t + {a, b}, g) {
      s := t + {a, b};
    } else {
      MeetAtOr(g, a, b, t);
      s := if Sat(t + {a}, g) then t + {a} else t + {b};
    }
    EvalHolding(s, f);
    EvalHolding(s, g);
  }

  // ----- Lists of parts -----

  /** A part of a list: whether OR joins it to what comes before it, what it says, and its text. */
  datatype Joined<P, T> = Part(or: bool, formula: Formula<P>, text: T)

  /** A run of parts joined by AND, and the parts behind it. */
  function Behind<P, T>(run: Formula<P>, parts: seq<Joined<P, T>>): Formula<P>
    decreases |parts|
  {
    if parts == [] then run
    else if parts[0].or then Either(run, Behind(parts[0].formula, parts[1..]))
    else Behind(Both(run, parts[0].formula), parts[1..])
  }

  /** The parts read with AND binding tighter than OR. */
  function Whole<P, T>(parts: seq<Joined<P, T>>): Formula<P>
    requires parts != []
  {
    Behind(parts[0].formula, parts[1..])
  }

  function NamesOf<P, T>(parts: seq<Joined<P, T>>): seq<P> {
    if parts == [] then [] else Names(parts[0].formula) + NamesOf(parts[1..])
  }

  lemma {:induction false} NamesOfBehind<P, T>(run: Formula<P>, parts: seq<Joined<P, T>>)
    ensures Names(Behind(run, parts)) == Names(run) + NamesOf(parts)
    decreases |parts|
  {
    if parts == [] {
      NoneBehind(Names(run));
    } else {
      var p, rest := parts[0].formula, parts[1..];
      if parts[0].or {
        NamesOfBehind(p, rest);
      } else {
        NamesOfBehind(Both(run, p), rest);
        ThreeInARow(Names(run), Names(p), NamesOf(rest));
      }
    }
  }

  lemma NoneBehind<P>(s: seq<P>)
    ensures s + [] == s
  {}

  lemma ThreeInARow<P>(s: seq<P>, t: seq<P>, u: seq<P>)
    ensures (s + t) + u == s + (t + u)
  {}

  lemma {:induction false} NamesOfJoined<P, T>(p: seq<Joined<P, T>>, q: seq<Joined<P, T>>)
    ensures NamesOf(p + q) == NamesOf(p) + NamesOf(q)
    decreases |p|
  {
    if p == [] {
      assert p + q == q && [] + NamesOf(q) == NamesOf(q);
    } else {
      assert (p + q)[1..] == p[1..] + q;
      NamesOfJoined(p[1..], q);
      assert Names(p[0].formula) + (NamesOf(p[1..]) + NamesOf(q)) == NamesOf(p) + NamesOf(q);
    }
  }

  /** `a` and `b` stand in neighbours joined by AND, or meet at an AND within a part. */
  predicate Linked<P(==), T>(parts: seq<Joined<P, T>>, a: P, b: P) {
    || (exists i :: 0 <= i < |parts| && Gate(parts[i].formula, true, a, b))
    || (exists i :: 0 < i < |parts| && !parts[i].or && a in Names(parts[i - 1].formula) && b in Names(parts[i].formula))
  }

  /** `a` and `b` stand on the two sides of an OR, or meet at an OR within a part. */
  predicate Apart<P(==), T>(parts: seq<Joined<P, T>>, a: P, b: P) {
    || (exists i :: 0 <= i < |parts| && Gate(parts[i].formula, false, a, b))
    || (exists i, k, j :: 0 <= i < k <= j < |parts| && Divides(parts, i, k, j, a, b))
  }

  predicate Divides<P(==), T>(parts: seq<Joined<P, T>>, i: int, k: int, j: int, a: P, b: P)
    requires 0 <= i < k <= j < |parts|
  {
    parts[k].or && a in Names(parts[i].formula) && b in Names(parts[j].formula)
  }

  lemma {:induction false} GateStays<P, T>(run: Formula<P>, parts: seq<Joined<P, T>>, and: bool, a: P, b: P)
    requires Gate(run, and, a, b)
    ensures Gate(Behind(run, parts), and, a, b)
    decreases |parts|
  {
    if parts != [] && !parts[0].or {
      GateStays(Both(run, parts[0].formula), parts[1..], and, a, b);
    }
  }

  lemma {:induction false} GateWithin<P, T>(run: Formula<P>, parts: seq<Joined<P, T>>, i: nat, and: bool, a: P, b: P)
    requires i < |parts| && Gate(parts[i].formula, and, a, b)
    ensures Gate(Behind(run, parts), and, a, b)
    decreases |parts|
  {
    if i > 0 {
      assert parts[i] == parts[1..][i - 1];
      GateWithin(if parts[0].or then parts[0].formula else Both(run, parts[0].formula), parts[1..], i - 1, and, a, b);
    } else if parts[0].or {
      GateStays(parts[0].formula, parts[1..], and, a, b);
    } else {
      GateStays(Both(run, parts[0].formula), parts[1..], and, a, b);
    }
  }

  function Before<P, T>(run: Formula<P>, parts: seq<Joined<P, T>>, i: nat): Formula<P>
    requires i <= |parts|
  {
    if i == 0 then run else parts[i - 1].formula
  }

  lemma {:induction false} NeighboursMeet<P, T>(run: Formula<P>, parts: seq<Joined<P, T>>, i: nat, a: P, b: P)
    requires i < |parts| && !parts[i].or && a in Names(Before(run, parts, i)) && b in Names(parts[i].formula)
    ensures Gate(Behind(run, parts), true, a, b)
    decreases |parts|
  {
    if i == 0 {
      GateStays(Both(run, parts[0].formula), parts[1..], true, a, b);
    } else {
      assert parts[i] == parts[1..][i - 1];
      NeighboursMeet(if parts[0].or then parts[0].formula else Both(run, parts[0].formula), parts[1..], i - 1, a, b);
    }
  }

  lemma {:induction false} DividedMeet<P, T>(run: Formula<P>, parts: seq<Joined<P, T>>, i: nat, k: nat, j: nat, a: P, b: P)
    requires i <= k <= j < |parts| && parts[k].or && a in Names(Before(run, parts, i)) && b in Names(parts[j].formula)
    ensures Gate(Behind(run, parts), false, a, b)
    decreases |parts|
  {
    assert j > 0 ==> parts[j] == parts[1..][j - 1];
    assert k > 0 ==> parts[k] == parts[1..][k - 1];
    if i > 0 {
      DividedMeet(if parts[0].or then parts[0].formula else Both(run, parts[0].formula), parts[1..], i - 1, k - 1, j - 1, a, b);
    } else if parts[0].or {
      NamesOfBehind(parts[0].formula, parts[1..]);
      if j > 0 {
        NameOfPart(parts[1..], j - 1, b);
      }
    } else {
      DividedMeet(Both(run, parts[0].formula), parts[1..], 0, k - 1, j - 1, a, b);
    }
  }

  lemma {:induction false} NameOfPart<P, T>(parts: seq<Joined<P, T>>, i: nat, b: P)
    requires i < |parts| && b in Names(parts[i].formula)
    ensures b in NamesOf(parts)
    decreases i
  {
    if i > 0 {
      NameOfPart(parts[1..], i - 1, b);
    }
  }

  lemma LinkedMeet<P, T>(parts: seq<Joined<P, T>>, a: P, b: P)
    requires parts != [] && Linked(parts, a, b)
    ensures Gate(Whole(parts), true, a, b)
  {
    var run, rest := parts[0].formula, parts[1..];
    assert forall i :: 0 < i < |parts| ==> parts[i] == rest[i - 1];
    if i :| 0 <= i < |parts| && Gate(parts[i].formula, true, a, b) {
      if i == 0 {
        GateStays(run, rest, true, a, b);
      } else {
        GateWithin(run, rest, i - 1, true, a, b);
      }
    } else {
      var i :| 0 < i < |parts| && !parts[i].or && a in Names(parts[i - 1].formula) && b in Names(parts[i].formula);
      NeighboursMeet(run, rest, i - 1, a, b);
    }
  }

  lemma ApartMeet<P, T>(parts: seq<Joined<P, T>>, a: P, b: P)
    requires parts != [] && Apart(parts, a, b)
    ensures Gate(Whole(parts), false, a, b)
  {
    var run, rest := parts[0].formula, parts[1..];
    assert forall i :: 0 < i < |parts| ==> parts[i] == rest[i - 1];
    if i :| 0 <= i < |parts| && Gate(parts[i].formula, false, a, b) {
      if i == 0 {
        GateStays(run, rest, false, a, b);
      } else {
        GateWithin(run, rest, i - 1, false, a, b);
      }
    } else {
      var i, k, j :| 0 <= i < k <= j < |parts| && Divides(parts, i, k, j, a, b);
      DividedMeet(run, rest, i, k - 1, j - 1, a, b);
    }
  }

  /** The part with the operator that joins it to what comes before it. */
  function Led<P, T>(or: bool, parts: seq<Joined<P, T>>): (r: seq<Joined<P, T>>)
    ensures |r| == |parts|
  {
    if parts == [] then [] else [parts[0].(or := or)] + parts[1..]
  }

  lemma LinkedStays<P, T>(before: seq<Joined<P, T>>, parts: seq<Joined<P, T>>, after: seq<Joined<P, T>>, a: P, b: P)
    requires Linked(parts, a, b)
    ensures Linked(before + parts + after, a, b)
  {
    var all := before + parts + after;
    assert forall i :: 0 <= i < |parts| ==> all[|before| + i] == parts[i];
    if i :| 0 <= i < |parts| && Gate(parts[i].formula, true, a, b) {
      assert Gate(all[|before| + i].formula, true, a, b);
    } else {
      var i :| 0 < i < |parts| && !parts[i].or && a in Names(parts[i - 1].formula) && b in Names(parts[i].formula);
      var i' := |before| + i;
      assert all[i' - 1] == parts[i - 1] && all[i'] == parts[i];
    }
  }

  lemma ApartStays<P, T>(before: seq<Joined<P, T>>, or: bool, parts: seq<Joined<P, T>>, after: seq<Joined<P, T>>, a: P, b: P)
    requires Apart(parts, a, b)
    ensures Apart(before + Led(or, parts) + after, a, b)
  {
    var all, n := before + Led(or, parts) + after, |before|;
    assert forall i :: 0 <= i < |parts| ==> all[n + i].formula == parts[i].formula && (i > 0 ==> all[n + i] == parts[i]);
    if i :| 0 <= i < |parts| && Gate(parts[i].formula, false, a, b) {
      assert Gate(all[n + i].formula, false, a, b);
    } else {
      var i, k, j :| 0 <= i < k <= j < |parts| && Divides(parts, i, k, j, a, b);
      assert Divides(all, n + i, n + k, n + j, a, b);
    }
  }

  /** Parts that are all joined by AND make one longer run. */
  lemma {:induction false} RunGoesOn<P, T>(run: Formula<P>, parts: seq<Joined<P, T>>, more: seq<Joined<P, T>>)
    requires forall k :: 0 <= k < |parts| ==> !parts[k].or
    ensures Behind(run, parts + more) == Behind(Behind(run, parts), more)
    decreases |parts|
  {
    if parts == [] {
      assert parts + more == more;
    } else {
      assert (parts + more)[1..] == parts[1..] + more;
      RunGoesOn(Both(run, parts[0].formula), parts[1..], more);
    }
  }

  /** Parts that begin with an OR stand on their own. */
  lemma {:induction false} OrGoesOn<P, T>(env: P -> Truth, run: Formula<P>, parts: seq<Joined<P, T>>, more: seq<Joined<P, T>>)
    requires more != [] && more[0].or
    ensures Eval(env, Behind(run, parts + more))
         == Disjunction(Eval(env, Behind(run, parts)), Eval(env, Behind(more[0].formula, more[1..])))
    decreases |parts|
  {
    if parts == [] {
      assert parts + more == more;
    } else {
      assert (parts + more)[1..] == parts[1..] + more;
      if parts[0].or {
        OrGoesOn(env, parts[0].formula, parts[1..], more);
      } else {
        OrGoesOn(env, Both(run, parts[0].formula), parts[1..], more);
      }
    }
  }
}
