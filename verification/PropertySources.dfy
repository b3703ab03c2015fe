/** The ordered collection of property sources (`ag/ag_conf/sources_mutable_property_sources.go`). */
module PropertySources {
  import opened CopyOnWrite

  /** A source; two sources may have the same name and differ. */
  datatype Source = Source(name: string, id: int)

  /** The first source of a name, or -1. */
  function IndexOfName(s: seq<Source>, name: string): (r: int)
    ensures -1 <= r < |s|
    ensures r >= 0 ==> s[r].name == name && forall j :: 0 <= j < r ==> s[j].name != name
    ensures r == -1 ==> forall j :: 0 <= j < |s| ==> s[j].name != name
  {
    if s == [] then -1
    else
      var r := IndexOfName(s[..|s| - 1], name);
      if r >= 0 then r else if s[|s| - 1].name == name then |s| - 1 else -1
  }

  /** Removes the source of a name, and whatever equals it. */
  function Removed(s: seq<Source>, name: string): seq<Source> {
    var i := IndexOfName(s, name);
    if i == -1 then s else Without(s, s[i])
  }

  predicate Unique(s: seq<Source>) {
    forall i, j :: 0 <= i < j < |s| ==> s[i].name != s[j].name
  }

  /** The sources of other names, in their order. */
  function Others(s: seq<Source>, name: string): seq<Source> {
    if s == [] then [] else Others(s[..|s| - 1], name) + if s[|s| - 1].name == name then [] else [s[|s| - 1]]
  }

  datatype Outcome = Done | NotFound | RelativeToItself

  function Before(s: seq<Source>, name: string, ps: Source): (Outcome, seq<Source>) {
    if name == ps.name then (RelativeToItself, s)
    else
      var i := IndexOfName(s, name);
      if i == -1 then (NotFound, s) else (Done, InsertAt(Removed(s, ps.name), i, ps))
  }

  function Behind(s: seq<Source>, name: string, ps: Source): (Outcome, seq<Source>) {
    if name == ps.name then (RelativeToItself, s)
    else
      var i := IndexOfName(s, name);
      if i == -1 then (NotFound, s) else (Done, InsertAt(Removed(s, ps.name), i + 1, ps))
  }

  // ----- The collection of the source -----

  class MutablePropertySources {
    const list: CopyOnWriteSlice<Source>

    ghost predicate Valid()
      reads this, list
    {
      list.Valid()
    }

    ghost function Sources(): seq<Source>
      reads this, list, list.value.arr
      requires Valid()
    {
      list.Contents()
    }

    constructor ()
      ensures Valid() && Sources() == []
    {
      list := new CopyOnWriteSlice<Source>();
    }

    method Find(name: string) returns (index: int)
      requires Valid()
      ensures index == IndexOfName(Sources(), name)
    {
      var sources := list.Value();
      for i := 0 to sources.len
        invariant forall j :: 0 <= j < i ==> sources.arr[j].name != name
      {
        if sources.arr[i].name == name {
          IndexIs(Sources(), name, i);
          return i;
        }
      }
      return -1;
    }

    method RemoveIfPresent(name: string)
      requires Valid()
      modifies list
      ensures Valid() && Sources() == Removed(old(Sources()), name)
      ensures list.SnapshotsKept() && fresh(list.Arrays() - old(list.Arrays()))
      ensures list.value.arr == old(list.value.arr) || fresh(list.value.arr)
    {
      var i := Find(name);
      if i >= 0 {
        var sources := list.Value();
        list.Delete(sources.arr[i]);
      }
    }

    method AddFirst(ps: Source)
      requires Valid()
      modifies list
      ensures Valid() && Sources() == InsertAt(Removed(old(Sources()), ps.name), 0, ps)
    {
      RemoveIfPresent(ps.name);
      list.AddIndex(0, ps);
    }

    method AddLast(ps: Source)
      requires Valid()
      modifies list, list.value.arr
      ensures Valid() && Sources() == Removed(old(Sources()), ps.name) + [ps]
    {
      RemoveIfPresent(ps.name);
      list.Add(ps);
    }

    method AddBefore(name: string, ps: Source) returns (r: Outcome)
      requires Valid()
      modifies list
      ensures Valid() && (r, Sources()) == Before(old(Sources()), name, ps)
    {
      hide IndexOfName, Removed, InsertAt;
      if name == ps.name {
        return RelativeToItself;
      }
      var index := Find(name);
      if index == -1 {
        return NotFound;
      }
      RemoveIfPresent(ps.name);
      list.AddIndex(index, ps);
      return Done;
    }

    method AddAfter(name: string, ps: Source) returns (r: Outcome)
      requires Valid()
      modifies list
      ensures Valid() && (r, Sources()) == Behind(old(Sources()), name, ps)
    {
      hide IndexOfName, Removed, InsertAt;
      if name == ps.name {
        return RelativeToItself;
      }
      var index := Find(name);
      if index == -1 {
        return NotFound;
      }
      RemoveIfPresent(ps.name);
      list.AddIndex(index + 1, ps);
      return Done;
    }

    method ReplaceSource(ps: Source) returns (r: Outcome)
      requires Valid()
      modifies list
      ensures Valid()
      ensures var i := IndexOfName(old(Sources()), ps.name);
        (r, Sources()) == if i == -1 then (NotFound, old(Sources())) else (Done, old(Sources())[i := ps])
    {
      var index := Find(ps.name);
      if index == -1 {
        return NotFound;
      }
      list.Set(index, ps);
      return Done;
    }

    method Remove(name: string)
      requires Valid()
      modifies list
      ensures Valid()
      ensures var i := IndexOfName(old(Sources()), name);
        Sources() == if i == -1 then old(Sources()) else old(Sources())[..i] + old(Sources())[i + 1..]
    {
      var index := Find(name);
      list.DeleteIndex(index);
    }
  }

  lemma {:induction false} IndexIs(s: seq<Source>, name: string, i: nat)
    requires i < |s| && s[i].name == name && forall j :: 0 <= j < i ==> s[j].name != name
    ensures IndexOfName(s, name) == i
  {}

  // ----- What the operations keep -----

  function DropAt(s: seq<Source>, i: nat): seq<Source>
    requires i < |s|
  {
    s[..i] + s[i + 1..]
  }

  lemma {:induction false} WithoutAbsent(s: seq<Source>, x: Source)
    requires x !in s
    ensures Without(s, x) == s
  {
    if s != [] {
      WithoutAbsent(s[..|s| - 1], x);
    }
  }

  lemma {:induction false} WithoutOnce(s: seq<Source>, i: nat)
    requires i < |s| && forall j :: 0 <= j < |s| && j != i ==> s[j] != s[i]
    ensures Without(s, s[i]) == DropAt(s, i)
  {
    var n := |s| - 1;
    if i == n {
      WithoutAbsent(s[..n], s[i]);
    } else {
      WithoutOnce(s[..n], i);
      assert DropAt(s, i) == DropAt(s[..n], i) + [s[n]];
    }
  }

  lemma RemovedIs(s: seq<Source>, name: string)
    requires Unique(s)
    ensures var i := IndexOfName(s, name); Removed(s, name) == if i == -1 then s else DropAt(s, i)
  {
    hide IndexOfName;
    var i := IndexOfName(s, name);
    if i >= 0 {
      WithoutOnce(s, i);
    }
  }

  lemma OthersLast(s: seq<Source>, x: Source, name: string)
    ensures Others(s + [x], name) == Others(s, name) + if x.name == name then [] else [x]
  {
    assert (s + [x])[..|s|] == s;
  }

  lemma Associates(a: seq<Source>, b: seq<Source>, c: seq<Source>)
    ensures a + (b + c) == (a + b) + c
  {}

  lemma OthersOfNone(a: seq<Source>, name: string)
    ensures a + [] == a && Others([], name) == [] && Others(a, name) + [] == Others(a, name)
  {}

  lemma {:induction false} OthersConcat(a: seq<Source>, b: seq<Source>, name: string)
    ensures Others(a + b, name) == Others(a, name) + Others(b, name)
    decreases |b|
  {
    hide *;
    if b == [] {
      OthersOfNone(a, name);
    } else {
      var n := |b| - 1;
      var front, x := b[..n], b[n];
      assert b == front + [x];
      OthersConcat(a, front, name);
      OthersLast(a + front, x, name);
      OthersLast(front, x, name);
      Associates(a, front, [x]);
      Associates(Others(a, name), Others(front, name), if x.name == name then [] else [x]);
    }
  }

  lemma OthersOne(x: Source, name: string)
    ensures Others([x], name) == if x.name == name then [] else [x]
  {}

  lemma OthersAround(a: seq<Source>, x: Source, b: seq<Source>)
    ensures Others(a + [x] + b, x.name) == Others(a + b, x.name)
  {
    hide Others;
    OthersConcat(a + [x], b, x.name);
    OthersConcat(a, [x], x.name);
    OthersConcat(a, b, x.name);
    OthersOne(x, x.name);
    assert Others(a, x.name) + [] == Others(a, x.name);
  }

  /** Inserting or dropping a source of a name leaves the others as they are. */
  lemma InsertLeavesOthers(s: seq<Source>, index: int, x: Source)
    ensures Others(InsertAt(s, index, x), x.name) == Others(s, x.name)
  {
    hide Others;
    var k := Clamp(index, |s|);
    OthersAround(s[..k], x, s[k..]);
    assert s[..k] + s[k..] == s;
  }

  lemma DropLeavesOthers(s: seq<Source>, i: nat)
    requires i < |s|
    ensures Others(DropAt(s, i), s[i].name) == Others(s, s[i].name)
  {
    hide Others;
    OthersAround(s[..i], s[i], s[i + 1..]);
    assert s[..i] + [s[i]] + s[i + 1..] == s;
  }

  lemma RemovedLeavesOthers(s: seq<Source>, name: string)
    requires Unique(s)
    ensures Others(Removed(s, name), name) == Others(s, name)
    ensures Unique(Removed(s, name)) && forall j :: 0 <= j < |Removed(s, name)| ==> Removed(s, name)[j].name != name
  {
    hide Others, IndexOfName, Removed;
    RemovedIs(s, name);
    var i := IndexOfName(s, name);
    if i >= 0 {
      DropLeavesOthers(s, i);
    }
  }

  lemma InsertKeepsUnique(s: seq<Source>, index: int, x: Source)
    requires Unique(s) && forall j :: 0 <= j < |s| ==> s[j].name != x.name
    ensures Unique(InsertAt(s, index, x))
  {
    var k, r := Clamp(index, |s|), InsertAt(s, index, x);
    assert forall j :: 0 <= j < |r| ==> r[j] == if j < k then s[j] else if j == k then x else s[j - 1];
  }

  /** Whatever place a source is put at after the one of its name was removed, names stay unique and the
      sources of other names keep their order. This is what AddFirst, AddLast, AddBefore and AddAfter do. */
  lemma PuttingKeepsTheOthers(s: seq<Source>, index: int, ps: Source)
    requires Unique(s)
    ensures var r := InsertAt(Removed(s, ps.name), index, ps);
      Unique(r) && Others(r, ps.name) == Others(s, ps.name) && ps in r
  {
    RemovedLeavesOthers(s, ps.name);
    hide Others, Removed;
    InsertKeepsUnique(Removed(s, ps.name), index, ps);
    InsertLeavesOthers(Removed(s, ps.name), index, ps);
    assert InsertAt(Removed(s, ps.name), index, ps)[Clamp(index, |Removed(s, ps.name)|)] == ps;
  }

  /** Replacing a source by one of the same name, and removing one, keep names unique and the others in
      order. */
  lemma ReplacingKeepsTheOthers(s: seq<Source>, ps: Source)
    requires Unique(s) && IndexOfName(s, ps.name) >= 0
    ensures var i := IndexOfName(s, ps.name);
      && Unique(s[i := ps]) && Others(s[i := ps], ps.name) == Others(s, ps.name)
      && Unique(DropAt(s, i)) && Others(DropAt(s, i), ps.name) == Others(s, ps.name)
      && IndexOfName(DropAt(s, i), ps.name) == -1
  {
    var i := IndexOfName(s, ps.name);
    DropLeavesOthers(s, i);
    DropLeavesOthers(s[i := ps], i);
    hide Others;
    assert DropAt(s[i := ps], i) == DropAt(s, i);
  }

  // ----- Where a source lands -----

  /** `ps` stands directly before the source of the name. */
  predicate DirectlyBefore(s: seq<Source>, ps: Source, name: string) {
    exists k :: 0 <= k < |s| - 1 && s[k] == ps && s[k + 1].name == name
  }

  predicate DirectlyBehind(s: seq<Source>, ps: Source, name: string) {
    exists k :: 0 < k < |s| && s[k] == ps && s[k - 1].name == name
  }

  /** What stands where after the removal and the insertion. */
  lemma Landing(s: seq<Source>, name: string, ps: Source, index: nat)
    requires Unique(s) && name != ps.name && IndexOfName(s, name) >= 0 && index <= |s|
    ensures var (i, j) := (IndexOfName(s, name), IndexOfName(s, ps.name));
      var removed := Removed(s, ps.name);
      var at := if 0 <= j < i then i - 1 else i;
      && |removed| == |s| - (if j >= 0 then 1 else 0)
      && 0 <= at < |removed| && removed[at].name == name
      && (forall k :: 0 <= k < |removed| && removed[k].name == name ==> k == at)
  {
    RemovedIs(s, ps.name);
    hide Removed, IndexOfName;
    var i, j := IndexOfName(s, name), IndexOfName(s, ps.name);
    var removed := Removed(s, ps.name);
    if j >= 0 {
      assert forall k :: 0 <= k < |removed| ==> removed[k] == if k < j then s[k] else s[k + 1];
    }
  }

  lemma Placed(removed: seq<Source>, index: nat, at: nat, ps: Source, name: string)
    requires at < |removed| && removed[at].name == name && name != ps.name && index <= |removed|
    requires forall k :: 0 <= k < |removed| && removed[k].name == name ==> k == at
    requires forall k :: 0 <= k < |removed| ==> removed[k].name != ps.name
    ensures var r := InsertAt(removed, index, ps);
      (DirectlyBefore(r, ps, name) <==> index == at) && (DirectlyBehind(r, ps, name) <==> index == at + 1)
  {
    var r := InsertAt(removed, index, ps);
    assert forall k :: 0 <= k < |r| ==> r[k] == if k < index then removed[k] else if k == index then ps else removed[k - 1];
    assert index == at ==> r[at] == ps && r[at + 1].name == name;
    assert index == at + 1 ==> r[at + 1] == ps && r[at].name == name;
  }

  /** AddBefore puts the source directly before its target exactly when none of its name stood in front of
      the target; else, the index being older than the removal, it lands directly behind. */
  lemma AddBeforeIsExact(s: seq<Source>, name: string, ps: Source)
    requires Unique(s) && name != ps.name && IndexOfName(s, name) >= 0
    ensures var r := Before(s, name, ps).1;
      var inFront := 0 <= IndexOfName(s, ps.name) < IndexOfName(s, name);
      (DirectlyBefore(r, ps, name) <==> !inFront) && (DirectlyBehind(r, ps, name) <==> inFront)
  {
    var i := IndexOfName(s, name);
    Landing(s, name, ps, i);
    RemovedLeavesOthers(s, ps.name);
    hide Removed, IndexOfName, Others, DirectlyBehind, DirectlyBefore;
    var at := if 0 <= IndexOfName(s, ps.name) < i then i - 1 else i;
    Placed(Removed(s, ps.name), i, at, ps, name);
  }

  /** AddAfter puts the source directly behind its target exactly when none of its name stood in front, or
      the target was the last; else it lands one place further. */
  lemma AddAfterIsExact(s: seq<Source>, name: string, ps: Source)
    requires Unique(s) && name != ps.name && IndexOfName(s, name) >= 0
    ensures var r := Behind(s, name, ps).1;
      var inFront := 0 <= IndexOfName(s, ps.name) < IndexOfName(s, name);
      DirectlyBehind(r, ps, name) <==> !inFront || IndexOfName(s, name) == |s| - 1
  {
    hide *;
    var i := IndexOfName(s, name);
    Landing(s, name, ps, i);
    RemovedLeavesOthers(s, ps.name);
    BehindIs(s, name, ps);
    var removed := Removed(s, ps.name);
    var at := if 0 <= IndexOfName(s, ps.name) < i then i - 1 else i;
    Placed(removed, Clamp(i + 1, |removed|), at, ps, name);
    ClampIs(i + 1, |removed|);
  }

  lemma ClampIs(index: nat, n: nat)
    ensures Clamp(index, n) == if index > n then n else index
  {}

  lemma BehindIs(s: seq<Source>, name: string, ps: Source)
    requires name != ps.name && IndexOfName(s, name) >= 0
    ensures var removed := Removed(s, ps.name);
      Behind(s, name, ps).1 == InsertAt(removed, Clamp(IndexOfName(s, name) + 1, |removed|), ps)
  {
    hide IndexOfName, Removed, InsertAt;
    ClampedInsert(Removed(s, ps.name), IndexOfName(s, name) + 1, ps);
  }

  lemma ClampedInsert(s: seq<Source>, index: int, x: Source)
    ensures InsertAt(s, index, x) == InsertAt(s, Clamp(index, |s|), x)
  {}
}
