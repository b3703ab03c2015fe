/** Searching in strings, as the Go standard library does it. */
module Text {

  /** `p` occurs in `s` at position `i`. */
  predicate At(s: string, i: nat, p: string)
    ensures At(s, i, p) ==> i + |p| <= |s|
  {
    i + |p| <= |s| && s[i..i + |p|] == p
  }

  /** The first occurrence of `p` in `s`, or -1. */
  function Index(s: string, p: string): (r: int)
    ensures r == -1 || (0 <= r && At(s, r, p))
    ensures forall i: nat | i < (if r == -1 then |s| else r) :: !At(s, i, p)
  {
    if |p| <= |s| && s[..|p|] == p then 0
    else if s == "" then -1
    else
      var r := Index(s[1..], p);
      assert forall i: nat | i < |s| - 1 :: At(s[1..], i, p) == At(s, i + 1, p) by {
        forall i: nat | i < |s| - 1 ensures At(s[1..], i, p) == At(s, i + 1, p) {
          ShiftAt(s[..1], s[1..], i, p);
          assert s == s[..1] + s[1..];
        }
      }
      assert !At(s, 0, p);
      assert forall i: nat | 0 < i < (if r == -1 then |s| else r + 1) :: !At(s, i, p) by {
        forall i: nat | 0 < i < (if r == -1 then |s| else r + 1) ensures !At(s, i, p) {
          assert At(s[1..], i - 1, p) == At(s, i - 1 + 1, p);
        }
      }
      if r == -1 then -1 else r + 1
  }

  lemma ShiftAt(u: string, s: string, i: nat, p: string)
    ensures At(u + s, |u| + i, p) == At(s, i, p)
  {
    if i + |p| <= |s| {
      assert (u + s)[|u| + i..|u| + i + |p|] == s[i..i + |p|];
    }
  }

  lemma AtBegins(s: string, i: nat, w: string)
    requires w != ""
    ensures At(s, i, w) ==> i < |s| && s[i] == w[0]
  {
    if At(s, i, w) {
      assert s[i..i + |w|][0] == s[i];
    }
  }

  /** A position that is the first occurrence is the one `Index` returns. */
  lemma IndexIsFirst(s: string, p: string, i: nat)
    requires At(s, i, p)
    requires forall j: nat | j < i :: !At(s, j, p)
    requires p != ""
    ensures Index(s, p) == i
  {
    hide At;
    var r := Index(s, p);
    assert i < |s|;
  }
}
