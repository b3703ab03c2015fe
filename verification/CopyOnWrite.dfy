/** The copy-on-write slice (`ag/ag_ext/copy_on_write.go`), with the arrays behind the slices. */
module CopyOnWrite {

  /** A slice: the first elements of an array. */
  datatype Slice<!T> = Slice(arr: array<T>, len: nat)

  function Clamp(index: int, n: nat): (r: nat)
    ensures r <= n && (0 <= index <= n ==> r == index)
    ensures (index < 0 ==> r == 0) && (index > n ==> r == n)
  {
    if index < 0 then 0 else if index > n then n else index
  }

  function InsertAt<T>(s: seq<T>, index: int, x: T): seq<T> {
    s[..Clamp(index, |s|)] + [x] + s[Clamp(index, |s|)..]
  }

  lemma InsertedAt<T>(s: seq<T>, r: seq<T>, index: int, x: T)
    requires |r| == |s| + 1 && r[Clamp(index, |s|)] == x
    requires forall i :: 0 <= i < Clamp(index, |s|) ==> r[i] == s[i]
    requires forall i :: Clamp(index, |s|) < i < |r| ==> r[i] == s[i - 1]
    ensures r == InsertAt(s, index, x)
  {
    hide Clamp;
  }

  /** All elements but those equal to `x`. */
  function Without<T(==)>(s: seq<T>, x: T): seq<T> {
    if s == [] then [] else Without(s[..|s| - 1], x) + if s[|s| - 1] == x then [] else [s[|s| - 1]]
  }

  datatype Operation<T> = DoAdd(x: T) | DoAddIndex(index: int, x: T) | DoDelete(x: T) | DoDeleteIndex(index: int) | DoSet(index: int, x: T)

  class CopyOnWriteSlice<T(==, 0)> {
    var value: Slice<T>
    ghost var issued: set<Slice<T>>   // every slice that was ever the value, so every slice a reader can hold

    /** On the current array the current slice is the longest. */
    ghost predicate Valid()
      reads this
    {
      && value in issued
      && forall s :: s in issued ==> s.len <= s.arr.Length && (s.arr == value.arr ==> s.len <= value.len)
    }

    ghost function Contents(): seq<T>
      reads this, value.arr
      requires Valid()
    {
      value.arr[..value.len]
    }

    ghost function Arrays(): set<object>
      reads this
    {
      set s | s in issued :: s.arr
    }

    constructor ()
      ensures Valid() && Contents() == [] && fresh(value.arr) && issued == {value}
    {
      var empty := new T[0];
      value := Slice(empty, 0);
      issued := {Slice(empty, 0)};
    }

    /** What every operation keeps: the elements of every slice handed out before. */
    twostate predicate SnapshotsKept()
      reads this, Arrays()
    {
      && old(issued) <= issued
      && forall s :: s in old(issued) ==> s.len <= s.arr.Length && s.arr[..s.len] == old(s.arr[..s.len])
    }

    method Value() returns (s: Slice<T>)
      requires Valid()
      ensures s == value && s in issued && s.arr[..s.len] == Contents()
    {
      return value;
    }

    method Len() returns (n: nat)
      requires Valid()
      ensures n == |Contents()|
    {
      return value.len;
    }

    method IndexOf(target: T) returns (index: int)
      requires Valid()
      ensures -1 <= index < |Contents()|
      ensures index >= 0 ==> Contents()[index] == target && target !in Contents()[..index]
      ensures index == -1 ==> target !in Contents()
    {
      for i := 0 to value.len
        invariant target !in value.arr[..i]
      {
        if value.arr[i] == target {
          return i;
        }
      }
      return -1;
    }

    /** Appends. With room behind the slice the element is written there, into the array that earlier
        slices share; else into a longer copy. */
    method Add(x: T)
      requires Valid()
      modifies this, value.arr
      ensures Valid() && Contents() == old(Contents()) + [x]
      ensures SnapshotsKept()
      ensures fresh(Arrays() - old(Arrays()))
    {
      var n := value.len;
      if n < value.arr.Length {
        value.arr[n] := x;
        value := Slice(value.arr, n + 1);
      } else {
        var spare: nat :| true;
        var longer := new T[n + 1 + spare];
        forall i | 0 <= i < n { longer[i] := value.arr[i]; }
        longer[n] := x;
        value := Slice(longer, n + 1);
      }
      issued := issued + {value};
    }

    method Publish(a: array<T>, n: nat)
      requires Valid() && n <= a.Length && a !in Arrays()
      modifies this
      ensures Valid() && value == Slice(a, n) && issued == old(issued) + {value}
    {
      value := Slice(a, n);
      issued := issued + {value};
    }

    method AddIndex(index: int, x: T)
      requires Valid()
      modifies this
      ensures Valid() && Contents() == InsertAt(old(Contents()), index, x)
      ensures SnapshotsKept()
      ensures fresh(Arrays() - old(Arrays()))
    {
      var n, at := value.len, Clamp(index, value.len);
      var copied := new T[n + 1];
      forall i | 0 <= i < at { copied[i] := value.arr[i]; }
      copied[at] := x;
      forall i | at <= i < n { copied[i + 1] := value.arr[i]; }
      InsertedAt(Contents(), copied[..n + 1], index, x);
      Publish(copied, n + 1);
    }

    method Delete(x: T)
      requires Valid()
      modifies this
      ensures Valid() && Contents() == Without(old(Contents()), x) && fresh(value.arr)
      ensures SnapshotsKept()
      ensures fresh(Arrays() - old(Arrays()))
    {
      assert value.len <= value.arr.Length;
      var n, current := value.len, value.arr;
      var copied := new T[n];
      var m: nat := 0;
      for i := 0 to n
        invariant m <= i && copied[..m] == Without(current[..i], x)
        modifies copied
      {
        assert current[..i + 1][..i] == current[..i];
        if current[i] != x {
          copied[m] := current[i];
          m := m + 1;
          assert copied[..m] == copied[..m - 1] + [copied[m - 1]];
        }
      }
      Publish(copied, m);
    }

    method DeleteIndex(index: int)
      requires Valid()
      modifies this
      ensures Valid()
      ensures Contents() == if 0 <= index < |old(Contents())| then old(Contents())[..index] + old(Contents())[index + 1..]
                            else old(Contents())
      ensures SnapshotsKept()
      ensures fresh(Arrays() - old(Arrays()))
    {
      var n := value.len;
      if index < 0 || index >= n {
        return;
      }
      var copied := new T[n - 1];
      forall i | 0 <= i < index { copied[i] := value.arr[i]; }
      forall i | index <= i < n - 1 { copied[i] := value.arr[i + 1]; }
      assert copied[..n - 1] == Contents()[..index] + Contents()[index + 1..];
      Publish(copied, n - 1);
    }

    method Set(index: int, x: T)
      requires Valid()
      modifies this
      ensures Valid()
      ensures Contents() == if 0 <= index < |old(Contents())| then old(Contents())[index := x] else old(Contents())
      ensures SnapshotsKept()
      ensures fresh(Arrays() - old(Arrays()))
    {
      var n := value.len;
      if index < 0 || index >= n {
        return;
      }
      var copied := new T[n];
      forall i | 0 <= i < n { copied[i] := value.arr[i]; }
      copied[index] := x;
      assert copied[..n] == Contents()[index := x];
      Publish(copied, n);
    }

    method Perform(op: Operation<T>)
      requires Valid()
      modifies this, Arrays()
      ensures Valid() && SnapshotsKept()
      ensures fresh(Arrays() - old(Arrays()))
    {
      match op {
        case DoAdd(x) => Add(x);
        case DoAddIndex(index, x) => AddIndex(index, x);
        case DoDelete(x) => Delete(x);
        case DoDeleteIndex(index) => DeleteIndex(index);
        case DoSet(index, x) => Set(index, x);
      }
    }

    /** Whatever operations follow, every slice handed out before keeps its elements. */
    method PerformAll(ops: seq<Operation<T>>)
      requires Valid()
      modifies this, Arrays()
      ensures Valid() && SnapshotsKept()
    {
      for i := 0 to |ops|
        invariant Valid() && SnapshotsKept()
        invariant fresh(Arrays() - old(Arrays()))
      {
        Perform(ops[i]);
      }
    }
  }
}
