/** The chain of handlers of a channel (`contribute/agonet/simple/pipeline.go`,
    `contribute/agonet/simple/context.go`). */
module Pipeline {
  /** What a handler handles. */
  datatype Kind = Inbound | Outbound | ExceptionCaught | Active | Inactive | EventFired

  class HandlerContext {
    var prev: HandlerContext?
    var next: HandlerContext?
    const kinds: set<Kind>

    constructor (kinds: set<Kind>, prev: HandlerContext?, next: HandlerContext?)
      ensures this.kinds == kinds && this.prev == prev && this.next == next
    {
      this.kinds, this.prev, this.next := kinds, prev, next;
    }
  }

  class HandlerChain {
    const head: HandlerContext
    const tail: HandlerContext
    var size: int
    ghost var contexts: seq<HandlerContext>

    /** The contexts are linked in both directions, from the head to the tail. */
    ghost predicate Valid()
      reads this, contexts
    {
      && |contexts| >= 2 && contexts[0] == head && contexts[|contexts| - 1] == tail
      && size == |contexts|
      && (forall i, j :: 0 <= i < j < |contexts| ==> contexts[i] != contexts[j])
      && (forall i :: 0 <= i < |contexts| - 1 ==> contexts[i].next == contexts[i + 1])
      && (forall i :: 0 < i < |contexts| ==> contexts[i].prev == contexts[i - 1])
      && head.prev == null && tail.next == null
    }

    constructor ()
      ensures Valid() && fresh(contexts) && |contexts| == 2
      ensures head.kinds == {Outbound} && tail.kinds == {ExceptionCaught}
    {
      var h := new HandlerContext({Outbound}, null, null);
      var t := new HandlerContext({ExceptionCaught}, null, null);
      h.next := t;
      t.prev := h;
      head, tail, size, contexts := h, t, 2, [h, t];
    }

    /** The new context comes directly behind the head. */
    method AddFirst(kinds: set<Kind>)
      requires Valid()
      modifies this, contexts
      ensures Valid() && |contexts| == |old(contexts)| + 1
      ensures fresh(contexts[1]) && contexts[1].kinds == kinds
      ensures contexts == [head] + [contexts[1]] + old(contexts)[1..]
    {
      assert contexts[0].next == contexts[1] && contexts[1].prev == contexts[0];
      var oldNext := head.next;
      var ctx := new HandlerContext(kinds, head, oldNext);
      head.next := ctx;
      oldNext.prev := ctx;
      size := size + 1;
      ghost var before := contexts;
      contexts := [head] + [ctx] + contexts[1..];
      assert forall i :: 1 < i < |contexts| ==> contexts[i] == before[i - 1];
    }

    /** The new context comes directly before the tail. */
    method AddLast(kinds: set<Kind>)
      requires Valid()
      modifies this, contexts
      ensures Valid() && |contexts| == |old(contexts)| + 1
      ensures fresh(contexts[|contexts| - 2]) && contexts[|contexts| - 2].kinds == kinds
      ensures contexts == old(contexts)[..|old(contexts)| - 1] + [contexts[|contexts| - 2]] + [tail]
    {
      ghost var n := |contexts|;
      assert contexts[n - 1].prev == contexts[n - 2] && contexts[n - 2].next == contexts[n - 1];
      var oldPrev := tail.prev;
      var ctx := new HandlerContext(kinds, oldPrev, tail);
      tail.prev := ctx;
      oldPrev.next := ctx;
      size := size + 1;
      ghost var before := contexts;
      contexts := contexts[..n - 1] + [ctx] + [tail];
      assert forall i :: 0 <= i < n - 1 ==> contexts[i] == before[i];
    }

    /** The first context behind this one that handles the kind. */
    ghost predicate IsNext(at: nat, kind: Kind, found: HandlerContext?)
      reads this
    {
      if found == null then forall i :: at < i < |contexts| ==> kind !in contexts[i].kinds
      else exists k :: at < k < |contexts| && contexts[k] == found && kind in found.kinds
                       && forall i :: at < i < k ==> kind !in contexts[i].kinds
    }

    /** The nearest context before this one that handles the kind. */
    ghost predicate IsPrevious(at: nat, kind: Kind, found: HandlerContext?)
      requires at < |contexts|
      reads this
    {
      if found == null then forall i :: 0 <= i < at ==> kind !in contexts[i].kinds
      else exists k :: 0 <= k < at && contexts[k] == found && kind in found.kinds
                       && forall i :: k < i < at ==> kind !in contexts[i].kinds
    }

    /** The walk of FireRead, FireActive, FireInactive, FireExceptionCaught and FireEvent. */
    method NextHandler(from: HandlerContext, kind: Kind, ghost at: nat) returns (found: HandlerContext?)
      requires Valid() && at < |contexts| && contexts[at] == from
      ensures IsNext(at, kind, found)
    {
      found := from.next;
      ghost var index := at + 1;
      while found != null && kind !in found.kinds
        invariant at < index <= |contexts|
        invariant found == if index < |contexts| then contexts[index] else null
        invariant forall i :: at < i < index ==> kind !in contexts[i].kinds
        decreases |contexts| - index
      {
        found := found.next;
        index := index + 1;
      }
    }

    /** The walk of Write and FireWrite. */
    method PrevHandler(from: HandlerContext, kind: Kind, ghost at: nat) returns (found: HandlerContext?)
      requires Valid() && at < |contexts| && contexts[at] == from
      ensures IsPrevious(at, kind, found)
    {
      found := from.prev;
      ghost var index := at - 1;
      while found != null && kind !in found.kinds
        invariant -1 <= index < at
        invariant found == if index >= 0 then contexts[index] else null
        invariant forall i :: index < i < at ==> kind !in contexts[i].kinds
        decreases index
      {
        found := found.prev;
        index := index - 1;
      }
    }
  }
}
