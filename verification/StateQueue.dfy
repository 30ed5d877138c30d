/**
 The queue of Lua states of src/lchaux.c.

 The queue owns no storage: it is a `head` and a `tail`, and every state stores the link to the
 next one itself (in its registry).  Class `StateQueue` keeps those fields and updates the links in
 place; `Contents` is the sequence the links spell, and each operation is specified on it.
 */
module StateQueues {

  /** A Lua state, reduced to the one registry entry the queue uses. */
  class LuaState {
    var next: LuaState?

    constructor ()
      ensures next == null
    {
      next := null;
    }
  }

  /** `s` without its first occurrence of `x`. */
  function Without<T(==)>(s: seq<T>, x: T): (r: seq<T>)
    ensures x !in s ==> r == s
    ensures x in s ==> |r| == |s| - 1
  {
    if s == [] then []
    else if s[0] == x then s[1..]
    else [s[0]] + Without(s[1..], x)
  }

  /** Removal cuts exactly one state out, and leaves what is before and behind it in place. */
  lemma {:induction false} WithoutCuts<T>(s: seq<T>, k: nat)
    requires k < |s|
    requires forall i :: 0 <= i < k ==> s[i] != s[k]
    ensures Without(s, s[k]) == s[..k] + s[k + 1..]
  {
    if k == 0 {
    } else {
      WithoutCuts(s[1..], k - 1);
      assert s[1..][k - 1] == s[k];
      assert s[..k] == [s[0]] + s[1..][..k - 1];
      assert s[1..][k..] == s[k + 1..];
    }
  }

  ghost predicate Distinct<T>(s: seq<T>) {
    forall i, j :: 0 <= i < j < |s| ==> s[i] != s[j]
  }

  class StateQueue {
    var head: LuaState?
    var tail: LuaState?
    ghost var Contents: seq<LuaState>

    ghost predicate Valid()
      reads this, Contents
    {
      && Distinct(Contents)
      && (Contents == [] ==> head == null && tail == null)
      && (Contents != [] ==> head == Contents[0] && tail == Contents[|Contents| - 1] && tail.next == null)
      && (forall i :: 0 <= i < |Contents| - 1 ==> Contents[i].next == Contents[i + 1])
    }

    constructor Init()
      ensures Valid() && Contents == []
    {
      head, tail := null, null;
      Contents := [];
    }

    /** The one-state queue that `lcuCS_enqueuestateq` builds on its stack. */
    constructor Single(L: LuaState)
      requires L.next == null
      ensures Valid() && Contents == [L]
    {
      head, tail := L, L;
      Contents := [L];
    }

    predicate Empty()
      requires Valid()
      reads this, Contents
      ensures Empty() <==> Contents == []
    {
      head == null
    }

    /** Links the states of `q2` behind the states of this queue; `q2` itself is not touched. */
    method Append(q2: StateQueue)
      requires Valid() && q2.Valid()
      requires q2 != this && q2.Contents != []
      requires forall i, j :: 0 <= i < |Contents| && 0 <= j < |q2.Contents| ==> Contents[i] != q2.Contents[j]
      modifies this, Contents
      ensures Valid() && Contents == old(Contents) + q2.Contents
    {
      if head != null {
        tail.next := q2.head;
      } else {
        head := q2.head;
      }
      tail := q2.tail;
      Contents := Contents + q2.Contents;
    }

    method Enqueue(L: LuaState)
      requires Valid()
      requires L !in Contents && L.next == null
      modifies this, Contents
      ensures Valid() && Contents == old(Contents) + [L]
      ensures L.next == null
    {
      var single := new StateQueue.Single(L);
      Append(single);
    }

    method Dequeue() returns (L: LuaState?)
      requires Valid()
      modifies this, Contents
      ensures Valid()
      ensures old(Contents) == [] ==> L == null && Contents == []
      ensures old(Contents) != [] ==> L == old(Contents)[0] && L.next == null && Contents == old(Contents)[1..]
    {
      L := head;
      if L != null {
        if L == tail {
          head, tail := null, null;
        } else {
          head := L.next;
        }
        L.next := null;
        Contents := Contents[1..];
      }
    }

    /** Takes the state behind `prev`, at position `i + 1`, out of the chain. */
    method Unlink(prev: LuaState, L: LuaState, ghost i: nat)
      requires Valid()
      requires i + 1 < |Contents| && Contents[i] == prev && Contents[i + 1] == L
      modifies this, Contents
      ensures Valid() && Contents == old(Contents)[..i + 1] + old(Contents)[i + 2..]
      ensures L.next == null
    {
      if L == tail {
        prev.next := null;
        tail := prev;
      } else {
        var current := L.next;
        prev.next := current;
      }
      L.next := null;
      Contents := Contents[..i + 1] + Contents[i + 2..];
    }

    /** Unlinks `L` when it is queued here; reports (as the source does) whether it was. */
    method Remove(L: LuaState) returns (removed: LuaState?)
      requires Valid()
      modifies this, Contents
      ensures Valid()
      ensures Contents == Without(old(Contents), L)
      ensures L in old(Contents) ==> removed == L && L.next == null
      ensures L !in old(Contents) ==> removed == null && forall M :: M in Contents ==> M.next == old(M.next)
    {
      var prev := head;
      if prev != null {
        if L == prev {
          removed := Dequeue();
          return;
        }
        ghost var i := 0;
        while prev != tail
          invariant 0 <= i < |Contents| && prev == Contents[i]
          invariant forall k :: 0 <= k <= i ==> Contents[k] != L
          decreases |Contents| - i
        {
          var current := prev.next;
          if current == L {
            WithoutCuts(Contents, i + 1);
            Unlink(prev, L, i);
            return L;
          }
          prev := current;
          i := i + 1;
        }
      }
      removed := null;
    }
  }
}
